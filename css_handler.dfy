/**
 * Stylesheet bookkeeping in the webview: the document head as a sequence of nodes, the rule
 * that finds the stylesheet link for a configured CSS file (data source first, then href, in
 * document order), and the operations that reload every dynamic stylesheet, add external
 * links once per normalised path, swap in a new link for a changed file and drop the link of
 * a deleted file.
 *
 * Node identity is an `id`, unique within the head, so a node can be found again after
 * others moved. Parsing a link's URL (`new URL(href).pathname`, or a throw) is an oracle, and
 * the removal of an old link once its successor has loaded (or after five seconds) is an
 * explicit step.
 */
module CssHandler {
  import opened Wrappers
  import opened Text

  /**
   * A node of the head: a stylesheet link with its `data-source` attribute, `href`,
   * `data-dynamic="true"` flag and `crossorigin="anonymous"` flag; a `<style>` element with its
   * element id and text; or anything else.
   */
  datatype Node =
    | Link(id: nat, dataSource: Option<string>, href: string, dynamic: bool, crossOrigin: bool)
    | Style(id: nat, elementId: string, text: string)
    | Other(id: nat)

  /** `new URL(href).pathname`, or `None` when the constructor throws. */
  type UrlPathname = string -> Option<string>

  /** `cssFile.replace(/\\/g, '/')`. */
  function Normalize(path: string): (r: string)
    ensures |r| == |path| && '\\' !in r
  {
    ReplaceChar(path, '\\', '/')
  }

  /** A normalised path holds no backslash and normalising it again changes nothing. */
  lemma NormalizeSpec(path: string)
    ensures '\\' !in Normalize(path)
    ensures Normalize(Normalize(path)) == Normalize(path)
    ensures |Normalize(path)| == |path|
    ensures forall i :: 0 <= i < |path| && path[i] != '\\' ==> Normalize(path)[i] == path[i]
  {
    var n := Normalize(path);
    forall i | 0 <= i < |n| ensures n[i] != '\\' {
    }
  }

  /** `normalizedCssFile.split('/').pop() || ''`: the segment after the last `/`. */
  function FileName(path: string): string {
    OrElse(LastSegment(Normalize(path), {'/'}), "")
  }

  /** The file name is the slash-free tail of the normalised path, after a `/` when shorter. */
  lemma FileNameSpec(path: string)
    ensures |FileName(path)| <= |path|
    ensures FileName(path) == Normalize(path)[|path| - |FileName(path)|..]
    ensures forall i :: 0 <= i < |FileName(path)| ==> FileName(path)[i] != '/' && FileName(path)[i] != '\\'
    ensures |FileName(path)| < |path| ==> Normalize(path)[|path| - |FileName(path)| - 1] == '/'
  {
    var n := Normalize(path);
    NormalizeSpec(path);
    LastSegmentIsSuffix(n, {'/'});
    var name := LastSegment(n, {'/'});
    assert FileName(path) == name;
    forall i | 0 <= i < |name| ensures name[i] != '\\' {
      assert name[i] == n[|n| - |name| + i];
    }
  }

  /** The first pass: the `data-source` is set, non-empty, and names this file. */
  predicate DataSourceMatch(n: Node, cssFile: string) {
    n.Link? && n.dataSource.Some? && n.dataSource.value != ""
    && (n.dataSource.value == cssFile || n.dataSource.value == Normalize(cssFile)
        || EndsWith(n.dataSource.value, "/" + FileName(cssFile)))
  }

  /**
   * The second pass: the href holds the normalised path, or the URL's last path segment is
   * the file name (possibly followed by `?`); when the URL does not parse, the href is
   * non-empty and holds the file name.
   */
  predicate HrefMatch(n: Node, cssFile: string, url: UrlPathname) {
    n.Link? &&
    match url(n.href)
    case Some(pathname) =>
      var urlName := OrElse(LastSegment(pathname, {'/'}), "");
      Contains(n.href, Normalize(cssFile)) || urlName == FileName(cssFile) || StartsWith(urlName, FileName(cssFile) + "?")
    case None => n.href != "" && Contains(n.href, FileName(cssFile))
  }

  function FirstDataSourceMatch(nodes: seq<Node>, cssFile: string, from: nat): (r: Option<nat>)
    decreases |nodes| - from
    ensures r.Some? ==> from <= r.value < |nodes| && DataSourceMatch(nodes[r.value], cssFile)
    ensures r.Some? ==> forall k :: from <= k < r.value ==> !DataSourceMatch(nodes[k], cssFile)
    ensures r.None? ==> forall k :: from <= k < |nodes| ==> !DataSourceMatch(nodes[k], cssFile)
  {
    if from >= |nodes| then None
    else if DataSourceMatch(nodes[from], cssFile) then Some(from)
    else FirstDataSourceMatch(nodes, cssFile, from + 1)
  }

  function FirstHrefMatch(nodes: seq<Node>, cssFile: string, url: UrlPathname, from: nat): (r: Option<nat>)
    decreases |nodes| - from
    ensures r.Some? ==> from <= r.value < |nodes| && HrefMatch(nodes[r.value], cssFile, url)
    ensures r.Some? ==> forall k :: from <= k < r.value ==> !HrefMatch(nodes[k], cssFile, url)
    ensures r.None? ==> forall k :: from <= k < |nodes| ==> !HrefMatch(nodes[k], cssFile, url)
  {
    if from >= |nodes| then None
    else if HrefMatch(nodes[from], cssFile, url) then Some(from)
    else FirstHrefMatch(nodes, cssFile, url, from + 1)
  }

  /** `findCssLinkTag`: the position of the link found, by data source before href. */
  function FindLink(nodes: seq<Node>, cssFile: string, url: UrlPathname): (r: Option<nat>)
    ensures r.Some? ==> r.value < |nodes| && nodes[r.value].Link?
  {
    var ds := FirstDataSourceMatch(nodes, cssFile, 0);
    if ds.Some? then ds else FirstHrefMatch(nodes, cssFile, url, 0)
  }

  /**
   * What is found is a link meeting one of the criteria; a data-source match anywhere wins
   * over every href match and the first one is taken; without one, the first href match is
   * taken; and nothing is found exactly when no link meets either criterion.
   */
  lemma FindLinkSpec(nodes: seq<Node>, cssFile: string, url: UrlPathname)
    ensures var r := FindLink(nodes, cssFile, url);
            (r.Some? ==> r.value < |nodes| && nodes[r.value].Link?
                         && (DataSourceMatch(nodes[r.value], cssFile) || HrefMatch(nodes[r.value], cssFile, url)))
            && (forall k :: 0 <= k < |nodes| && DataSourceMatch(nodes[k], cssFile) ==>
                  r.Some? && r.value <= k && DataSourceMatch(nodes[r.value], cssFile))
            && ((forall k :: 0 <= k < |nodes| ==> !DataSourceMatch(nodes[k], cssFile)) ==>
                  forall k :: 0 <= k < |nodes| && HrefMatch(nodes[k], cssFile, url) ==>
                    r.Some? && r.value <= k && HrefMatch(nodes[r.value], cssFile, url))
            && (r.None? <==> forall k :: 0 <= k < |nodes| ==>
                               !DataSourceMatch(nodes[k], cssFile) && !HrefMatch(nodes[k], cssFile, url))
  {
  }

  /** The href of a link added for an external file: local paths get the resource scheme and a cache-busting timestamp. */
  function ExternalHref(normalized: string, timestamp: nat): (r: string)
    ensures |normalized| <= |r|
  {
    if !StartsWith(normalized, "http://") && !StartsWith(normalized, "https://") then
      var uri := if StartsWith(normalized, "vscode-resource:") then normalized else "vscode-resource://" + normalized;
      uri + "?t=" + NatToString(timestamp)
    else normalized
  }

  /** Remote URLs are kept verbatim; a local href is a resource URI ending in `?t=` and the timestamp. */
  lemma ExternalHrefSpec(normalized: string, timestamp: nat)
    ensures StartsWith(normalized, "http://") || StartsWith(normalized, "https://") ==>
              ExternalHref(normalized, timestamp) == normalized
    ensures !(StartsWith(normalized, "http://") || StartsWith(normalized, "https://")) ==>
              var h := ExternalHref(normalized, timestamp);
              StartsWith(h, "vscode-resource:") && EndsWith(h, "?t=" + NatToString(timestamp))
              && (StartsWith(normalized, "vscode-resource:") <==> h == normalized + "?t=" + NatToString(timestamp))
  {
    if !(StartsWith(normalized, "http://") || StartsWith(normalized, "https://")) {
      var tail := "?t=" + NatToString(timestamp);
      var p, scheme := "vscode-resource:", "vscode-resource://";
      assert StartsWith(scheme, p) by {
        assert scheme[..|p|] == p;
      }
      LocalHrefShape(normalized, tail, p, scheme);
      assert ExternalHref(normalized, timestamp) == (if StartsWith(normalized, p) then normalized else scheme + normalized) + tail;
    }
  }

  /** A local href: the path, with `scheme` in front unless it starts with the prefix `p` of that scheme, then `tail`. */
  lemma LocalHrefShape(normalized: string, tail: string, p: string, scheme: string)
    requires StartsWith(scheme, p) && |scheme| > 0
    ensures var u := if StartsWith(normalized, p) then normalized else scheme + normalized;
            StartsWith(u + tail, p) && EndsWith(u + tail, tail)
            && (StartsWith(normalized, p) <==> u + tail == normalized + tail)
  {
    var u := if StartsWith(normalized, p) then normalized else scheme + normalized;
    if !StartsWith(normalized, p) {
      StartsWithAppend(scheme, normalized, p);
      assert |u + tail| != |normalized + tail|;
    }
    StartsWithAppend(u, tail, p);
    EndsWithAppend(u, tail);
  }

  /** The link `addExternalCssLinks` creates for one file. */
  function ExternalLink(id: nat, cssFile: string, timestamp: nat): (n: Node)
    ensures n.Link? && n.id == id && n.dynamic && n.dataSource == Some(Normalize(cssFile))
  {
    var normalized := Normalize(cssFile);
    var remote := StartsWith(normalized, "http://") || StartsWith(normalized, "https://");
    Link(id, Some(normalized), ExternalHref(normalized, timestamp), true, remote)
  }

  /** Every id is below `next` and no two nodes share one. */
  predicate IdsOk(nodes: seq<Node>, next: nat) {
    (forall k :: 0 <= k < |nodes| ==> nodes[k].id < next)
    && (forall i, j :: 0 <= i < j < |nodes| ==> nodes[i].id != nodes[j].id)
  }

  /** `nodes` with the node at `k` replaced by `n`. */
  function ReplaceNode(nodes: seq<Node>, k: nat, n: Node): (r: seq<Node>)
    requires k < |nodes|
    ensures |r| == |nodes| && r[k] == n
    ensures forall j :: 0 <= j < |nodes| && j != k ==> r[j] == nodes[j]
  {
    nodes[..k] + [n] + nodes[k + 1..]
  }

  /** `nodes` with `n` inserted just before the node at `k`. */
  function InsertBefore(nodes: seq<Node>, k: nat, n: Node): (r: seq<Node>)
    requires k <= |nodes|
    ensures |r| == |nodes| + 1 && r[k] == n
    ensures forall j :: 0 <= j < k ==> r[j] == nodes[j]
    ensures forall j :: k <= j < |nodes| ==> r[j + 1] == nodes[j]
  {
    nodes[..k] + [n] + nodes[k..]
  }

  /** `nodes` without the node at `k`. */
  function RemoveNode(nodes: seq<Node>, k: nat): (r: seq<Node>)
    requires k < |nodes|
    ensures |r| == |nodes| - 1
    ensures forall j :: 0 <= j < k ==> r[j] == nodes[j]
    ensures forall j :: k < j < |nodes| ==> r[j - 1] == nodes[j]
  {
    nodes[..k] + nodes[k + 1..]
  }

  lemma ReplaceKeepsIds(nodes: seq<Node>, next: nat, k: nat, n: Node)
    requires k < |nodes| && IdsOk(nodes, next) && n.id == next
    ensures IdsOk(ReplaceNode(nodes, k, n), next + 1)
  {
  }

  lemma InsertKeepsIds(nodes: seq<Node>, next: nat, k: nat, n: Node)
    requires k <= |nodes| && IdsOk(nodes, next) && n.id == next
    ensures IdsOk(InsertBefore(nodes, k, n), next + 1)
  {
    var r := InsertBefore(nodes, k, n);
    forall i, j | 0 <= i < j < |r| ensures r[i].id != r[j].id {
      if i > k {
        assert r[i] == nodes[i - 1] && r[j] == nodes[j - 1];
      } else if i < k && j > k {
        assert r[j] == nodes[j - 1];
      }
    }
  }

  lemma RemoveKeepsIds(nodes: seq<Node>, next: nat, k: nat)
    requires k < |nodes| && IdsOk(nodes, next)
    ensures IdsOk(RemoveNode(nodes, k), next)
  {
    var r := RemoveNode(nodes, k);
    forall i, j | 0 <= i < j < |r| ensures r[i].id != r[j].id {
      if i >= k {
        assert r[i] == nodes[i + 1] && r[j] == nodes[j + 1];
      } else if j >= k {
        assert r[j] == nodes[j + 1];
      }
    }
  }

  /**
   * One step of `addExternalCssLinks` for a file seen for the first time: a new dynamic link
   * takes the place of the link found for it, or goes at the end of the head.
   */
  function AddOne(nodes: seq<Node>, next: nat, cssFile: string, timestamp: nat, url: UrlPathname): (r: (seq<Node>, nat))
    ensures r.1 == next + 1
  {
    var link := ExternalLink(next, cssFile, timestamp);
    match FindLink(nodes, cssFile, url)
    case Some(k) => (if k < |nodes| then ReplaceNode(nodes, k, link) else nodes, next + 1)
    case None => (nodes + [link], next + 1)
  }

  /**
   * A new file's link replaces the link found for it at the same position, leaving every
   * other node in place, or is appended when none is found; it is dynamic, its data source is
   * the normalised path, and only remote URLs get `crossorigin`.
   */
  lemma AddOneSpec(nodes: seq<Node>, next: nat, cssFile: string, timestamp: nat, url: UrlPathname)
    ensures var r := AddOne(nodes, next, cssFile, timestamp, url).0;
            var link := ExternalLink(next, cssFile, timestamp);
            link.dynamic && link.dataSource == Some(Normalize(cssFile))
            && (link.crossOrigin <==> StartsWith(Normalize(cssFile), "http://") || StartsWith(Normalize(cssFile), "https://"))
            && match FindLink(nodes, cssFile, url)
               case Some(k) => |r| == |nodes| && r[k] == link && forall j :: 0 <= j < |nodes| && j != k ==> r[j] == nodes[j]
               case None => r == nodes + [link]
  {
    FindLinkSpec(nodes, cssFile, url);
  }

  lemma AddOneKeepsIds(nodes: seq<Node>, next: nat, cssFile: string, timestamp: nat, url: UrlPathname)
    requires IdsOk(nodes, next)
    ensures IdsOk(AddOne(nodes, next, cssFile, timestamp, url).0, next + 1)
  {
    FindLinkSpec(nodes, cssFile, url);
    var link := ExternalLink(next, cssFile, timestamp);
    match FindLink(nodes, cssFile, url)
    case Some(k) => ReplaceKeepsIds(nodes, next, k, link);
    case None => InsertKeepsIds(nodes, next, |nodes|, link);
  }

  /** `findCssLinkTag(cssFile)`: a data-source pass over the links, then an href pass. */
  method FindCssLinkTag(nodes: seq<Node>, cssFile: string, url: UrlPathname) returns (r: Option<nat>)
    ensures r == FindLink(nodes, cssFile, url)
  {
    var normalized := ReplaceChar(cssFile, '\\', '/');
    var name := OrElse(LastSegment(normalized, {'/'}), "");
    r := DataSourcePass(nodes, cssFile, normalized, name);
    if r.None? {
      r := HrefPass(nodes, cssFile, url, normalized, name);
    }
  }

  /** The first pass: the first link whose data source names the file. */
  method DataSourcePass(nodes: seq<Node>, cssFile: string, normalized: string, name: string) returns (r: Option<nat>)
    requires normalized == Normalize(cssFile) && name == FileName(cssFile)
    ensures r == FirstDataSourceMatch(nodes, cssFile, 0)
  {
    for i := 0 to |nodes|
      invariant forall k :: 0 <= k < i ==> !DataSourceMatch(nodes[k], cssFile)
    {
      var hit := IsDataSourceMatch(nodes[i], cssFile, normalized, name);
      if hit {
        return Some(i);
      }
    }
    return None;
  }

  /** The second pass: the first link whose href names the file. */
  method HrefPass(nodes: seq<Node>, cssFile: string, url: UrlPathname, normalized: string, name: string) returns (r: Option<nat>)
    requires normalized == Normalize(cssFile) && name == FileName(cssFile)
    ensures r == FirstHrefMatch(nodes, cssFile, url, 0)
  {
    for i := 0 to |nodes|
      invariant forall k :: 0 <= k < i ==> !HrefMatch(nodes[k], cssFile, url)
    {
      var hit := IsHrefMatch(nodes[i], cssFile, url, normalized, name);
      if hit {
        return Some(i);
      }
    }
    return None;
  }

  /** The test of the data-source pass, on the normalised path and file name computed once. */
  method IsDataSourceMatch(n: Node, cssFile: string, normalized: string, name: string) returns (hit: bool)
    requires normalized == Normalize(cssFile) && name == FileName(cssFile)
    ensures hit == DataSourceMatch(n, cssFile)
  {
    hit := n.Link? && n.dataSource.Some? && n.dataSource.value != ""
           && (n.dataSource.value == cssFile || n.dataSource.value == normalized || EndsWith(n.dataSource.value, "/" + name));
  }

  /** The test of the href pass, on the normalised path and file name computed once. */
  method IsHrefMatch(n: Node, cssFile: string, url: UrlPathname, normalized: string, name: string) returns (hit: bool)
    requires normalized == Normalize(cssFile) && name == FileName(cssFile)
    ensures hit == HrefMatch(n, cssFile, url)
  {
    hit := false;
    if n.Link? {
      match url(n.href)
      case Some(pathname) =>
        var urlName := OrElse(LastSegment(pathname, {'/'}), "");
        if Contains(n.href, normalized) {
          hit := true;
        } else if urlName == name || StartsWith(urlName, name + "?") {
          hit := true;
        }
      case None =>
        hit := n.href != "" && Contains(n.href, name);
    }
  }

  /** The normalised forms of `files`. */
  function NormSet(files: seq<string>): set<string> {
    set i | 0 <= i < |files| :: Normalize(files[i])
  }

  /** The files `addExternalCssLinks` processes: each one whose normalised path is new. */
  function Kept(files: seq<string>): (r: seq<string>)
    ensures |r| <= |files|
  {
    if files == [] then []
    else
      var init := files[..|files| - 1];
      Kept(init) + (if Normalize(Last(files)) in NormSet(init) then [] else [Last(files)])
  }

  lemma NormSetSnoc(init: seq<string>, f: string)
    ensures NormSet(init + [f]) == NormSet(init) + {Normalize(f)}
  {
    var files := init + [f];
    assert forall i :: 0 <= i < |init| ==> files[i] == init[i];
    assert files[|init|] == f;
    forall x | x in NormSet(files) ensures x in NormSet(init) + {Normalize(f)} {
      var i :| 0 <= i < |files| && x == Normalize(files[i]);
      if i < |init| {
        assert x == Normalize(init[i]);
      }
    }
  }

  /**
   * Each normalised path is processed once: the kept files have pairwise different
   * normalised paths, they come from the list, and together they cover every path of it.
   */
  lemma {:induction false} KeptOncePerPath(files: seq<string>)
    ensures forall i, j :: 0 <= i < j < |Kept(files)| ==> Normalize(Kept(files)[i]) != Normalize(Kept(files)[j])
    ensures forall i :: 0 <= i < |Kept(files)| ==> Kept(files)[i] in files
    ensures NormSet(Kept(files)) == NormSet(files)
  {
    if files != [] {
      var init := files[..|files| - 1];
      var f := Last(files);
      KeptOncePerPath(init);
      assert files == init + [f];
      NormSetSnoc(init, f);
      if Normalize(f) !in NormSet(init) {
        var k := Kept(init);
        NormSetSnoc(k, f);
        assert Kept(files) == k + [f];
        forall i | 0 <= i < |k| ensures Normalize(k[i]) != Normalize(f) {
          assert Normalize(k[i]) in NormSet(k);
        }
        forall i | 0 <= i < |Kept(files)| ensures Kept(files)[i] in files {
          if i < |k| {
            assert Kept(files)[i] == k[i];
          }
        }
      } else {
        assert Kept(files) == Kept(init);
      }
    }
  }

  /** `addExternalCssLinks(files, timestamp)`, defined one file at a time. */
  function AddLinks(nodes: seq<Node>, next: nat, files: seq<string>, timestamp: nat, url: UrlPathname): (r: (seq<Node>, nat))
    ensures r.1 == next + |Kept(files)|
  {
    if files == [] then (nodes, next)
    else
      var init := files[..|files| - 1];
      var before := AddLinks(nodes, next, init, timestamp, url);
      if Normalize(Last(files)) in NormSet(init) then before
      else AddOne(before.0, before.1, Last(files), timestamp, url)
  }

  /** Applying `AddOne` to each of `files` in turn. */
  function AddEach(nodes: seq<Node>, next: nat, files: seq<string>, timestamp: nat, url: UrlPathname): (seq<Node>, nat) {
    if files == [] then (nodes, next)
    else
      var before := AddEach(nodes, next, files[..|files| - 1], timestamp, url);
      AddOne(before.0, before.1, Last(files), timestamp, url)
  }

  /** Adding the external links is adding one link for each kept file, in order. */
  lemma {:induction false} AddLinksIsAddEachKept(nodes: seq<Node>, next: nat, files: seq<string>, timestamp: nat, url: UrlPathname)
    ensures AddLinks(nodes, next, files, timestamp, url) == AddEach(nodes, next, Kept(files), timestamp, url)
  {
    if files != [] {
      var init := files[..|files| - 1];
      var f := Last(files);
      AddLinksIsAddEachKept(nodes, next, init, timestamp, url);
      var before := AddLinks(nodes, next, init, timestamp, url);
      if Normalize(f) !in NormSet(init) {
        var k := Kept(init) + [f];
        assert Kept(files) == k;
        assert k[..|k| - 1] == Kept(init) && Last(k) == f;
        assert AddEach(nodes, next, k, timestamp, url) == AddOne(before.0, before.1, f, timestamp, url);
        assert AddLinks(nodes, next, files, timestamp, url) == AddOne(before.0, before.1, f, timestamp, url);
      } else {
        assert Kept(files) == Kept(init);
        assert AddLinks(nodes, next, files, timestamp, url) == before;
      }
    }
  }

  lemma {:induction false} AddLinksKeepsIds(nodes: seq<Node>, next: nat, files: seq<string>, timestamp: nat, url: UrlPathname)
    requires IdsOk(nodes, next)
    ensures IdsOk(AddLinks(nodes, next, files, timestamp, url).0, AddLinks(nodes, next, files, timestamp, url).1)
  {
    if files != [] {
      var init := files[..|files| - 1];
      AddLinksKeepsIds(nodes, next, init, timestamp, url);
      var before := AddLinks(nodes, next, init, timestamp, url);
      if Normalize(Last(files)) !in NormSet(init) {
        AddOneKeepsIds(before.0, before.1, Last(files), timestamp, url);
      }
    }
  }

  /** The head with the dynamic links taken out. */
  function WithoutDynamic(nodes: seq<Node>): (r: seq<Node>)
    ensures forall k :: 0 <= k < |r| ==> r[k] in nodes && !(r[k].Link? && r[k].dynamic)
    ensures forall n :: n in nodes && !(n.Link? && n.dynamic) ==> n in r
  {
    if nodes == [] then []
    else
      var init := WithoutDynamic(nodes[..|nodes| - 1]);
      var n := Last(nodes);
      assert forall m :: m in nodes ==> m in nodes[..|nodes| - 1] || m == n;
      if n.Link? && n.dynamic then init else init + [n]
  }

  /** Taking nodes out keeps the order and the identities of the rest. */
  lemma {:induction false} WithoutDynamicKeepsIds(nodes: seq<Node>, next: nat)
    requires IdsOk(nodes, next)
    ensures IdsOk(WithoutDynamic(nodes), next)
  {
    if nodes != [] {
      var init := nodes[..|nodes| - 1];
      WithoutDynamicKeepsIds(init, next);
      var n := Last(nodes);
      var w := WithoutDynamic(init);
      if !(n.Link? && n.dynamic) {
        forall k | 0 <= k < |w| ensures w[k].id != n.id {
          var j :| 0 <= j < |init| && init[j] == w[k];
          assert nodes[j] == init[j];
        }
      }
    }
  }

  /** The element id the custom style carries. */
  const CustomCssId := "custom-css"

  /**
   * `document.getElementById('custom-css')`, among the `<style>` elements of the head. The
   * browser call returns the first element of any kind with that id, anywhere in the
   * document; the model's head holds no other element carrying it, so only styles are searched.
   */
  function FindCustomStyle(nodes: seq<Node>, from: nat): (r: Option<nat>)
    decreases |nodes| - from
    ensures r.Some? ==> from <= r.value < |nodes| && nodes[r.value].Style? && nodes[r.value].elementId == CustomCssId
    ensures r.None? ==> forall k :: from <= k < |nodes| ==> !(nodes[k].Style? && nodes[k].elementId == CustomCssId)
  {
    if from >= |nodes| then None
    else if nodes[from].Style? && nodes[from].elementId == CustomCssId then Some(from)
    else FindCustomStyle(nodes, from + 1)
  }

  /** The position of the node with this id. */
  function IndexOfId(nodes: seq<Node>, id: nat, from: nat): (r: Option<nat>)
    decreases |nodes| - from
    ensures r.Some? ==> from <= r.value < |nodes| && nodes[r.value].id == id
    ensures r.None? ==> forall k :: from <= k < |nodes| ==> nodes[k].id != id
  {
    if from >= |nodes| then None
    else if nodes[from].id == id then Some(from)
    else IndexOfId(nodes, id, from + 1)
  }

  /** The CSS settings a reload uses; `None` for a missing value (or a files value that is not an array). */
  datatype CssConfig = CssConfig(customCss: Option<string>, externalCssFiles: Option<seq<string>>, cssLoadOrder: Option<string>)

  /** The text of the custom style after a reload: `config.customCss || ''`. */
  function CustomText(config: CssConfig): string {
    match config.customCss
    case Some(s) => s
    case None => ""
  }

  /**
   * The head after the first part of a reload — dynamic links removed and the custom style
   * holding the configured text — with the next free id and the style's id.
   */
  function Prepare(nodes: seq<Node>, next: nat, config: CssConfig): (r: (seq<Node>, nat, nat))
    ensures next <= r.1 <= next + 1
    ensures r.1 == next + 1 ==> r.2 == next && |r.0| > 0 && Last(r.0) == Style(next, CustomCssId, CustomText(config))
  {
    var w := WithoutDynamic(nodes);
    match FindCustomStyle(w, 0)
    case Some(k) => (w[k := w[k].(text := CustomText(config))], next, w[k].id)
    case None => (w + [Style(next, CustomCssId, CustomText(config))], next + 1, next)
  }

  /**
   * A reload leaves no dynamic link that was there before, and exactly one node with the
   * style's id: the custom style, holding `customCss || ''`.
   */
  lemma PrepareSpec(nodes: seq<Node>, next: nat, config: CssConfig)
    requires IdsOk(nodes, next)
    ensures var (p, next', sid) := Prepare(nodes, next, config);
            (forall k :: 0 <= k < |p| && p[k].Link? && p[k].dynamic ==> false)
            && next <= next'
            && IndexOfId(p, sid, 0).Some?
            && var i := IndexOfId(p, sid, 0).value;
               p[i] == Style(sid, CustomCssId, CustomText(config))
  {
    var w := WithoutDynamic(nodes);
    var (p, next', sid) := Prepare(nodes, next, config);
    WithoutDynamicKeepsIds(nodes, next);
    match FindCustomStyle(w, 0)
    case Some(k) =>
      assert p[k].id == sid;
      var i := IndexOfId(p, sid, 0).value;
    case None =>
      assert p[|w|].id == sid;
      var i := IndexOfId(p, sid, 0).value;
  }

  /** `before` with the node of this id moved to the end (unchanged without one). */
  function MovedToEnd(before: seq<Node>, id: nat): (r: seq<Node>)
    ensures |r| == |before|
    ensures IndexOfId(before, id, 0).None? ==> r == before
  {
    match IndexOfId(before, id, 0)
    case None => before
    case Some(k) => RemoveNode(before, k) + [before[k]]
  }

  /**
   * The head and next free id after a reload: prepared, then with a files list the external
   * links added, and under any order but `custom-first` the style moved to the end.
   */
  function Reload(nodes: seq<Node>, next: nat, config: CssConfig, timestamp: nat, url: UrlPathname): (r: (seq<Node>, nat))
    ensures config.externalCssFiles.None? ==> r.1 == Prepare(nodes, next, config).1
    ensures config.externalCssFiles.Some? ==> r.1 == Prepare(nodes, next, config).1 + |Kept(config.externalCssFiles.value)|
  {
    var (prepared, next', styleId) := Prepare(nodes, next, config);
    match config.externalCssFiles
    case None => (prepared, next')
    case Some(files) =>
      var added := AddLinks(prepared, next', files, timestamp, url);
      if config.cssLoadOrder == Some("custom-first") then added
      else (MovedToEnd(added.0, styleId), added.1)
  }

  /** Under any order but `custom-first` the custom style ends up after every other node. */
  lemma MovedToEndIsLast(before: seq<Node>, id: nat)
    requires IndexOfId(before, id, 0).Some?
    ensures var after := MovedToEnd(before, id);
            |after| == |before| && Last(after).id == id && multiset(after) == multiset(before)
  {
    var k := IndexOfId(before, id, 0).value;
    var a, n, c := before[..k], before[k], before[k + 1..];
    assert before == a + [n] + c;
    assert MovedToEnd(before, id) == a + c + [n];
    assert multiset(a + c + [n]) == multiset(a) + multiset(c) + multiset{n};
  }

  lemma PrepareKeepsIds(nodes: seq<Node>, next: nat, config: CssConfig)
    requires IdsOk(nodes, next)
    ensures IdsOk(Prepare(nodes, next, config).0, Prepare(nodes, next, config).1)
  {
    WithoutDynamicKeepsIds(nodes, next);
    var w := WithoutDynamic(nodes);
    match FindCustomStyle(w, 0)
    case Some(k) =>
      var p := w[k := w[k].(text := CustomText(config))];
      assert forall j :: 0 <= j < |w| ==> p[j].id == w[j].id;
    case None =>
      var st := Style(next, CustomCssId, CustomText(config));
      InsertKeepsIds(w, next, |w|, st);
      assert InsertBefore(w, |w|, st) == w + [st];
  }

  /** One added link keeps every node that is not a link, and every node it adds is a link with the new id. */
  lemma AddOneKeepsOthers(nodes: seq<Node>, next: nat, cssFile: string, timestamp: nat, url: UrlPathname)
    ensures var r := AddOne(nodes, next, cssFile, timestamp, url).0;
            (forall n :: n in nodes && !n.Link? ==> n in r)
            && (forall n :: n in r ==> n in nodes || (n.Link? && n.id == next))
  {
    FindLinkSpec(nodes, cssFile, url);
    var r := AddOne(nodes, next, cssFile, timestamp, url).0;
    match FindLink(nodes, cssFile, url)
    case Some(k) =>
      forall n | n in nodes && !n.Link? ensures n in r {
        var j :| 0 <= j < |nodes| && nodes[j] == n;
        assert j != k && r[j] == n;
      }
      forall n | n in r ensures n in nodes || (n.Link? && n.id == next) {
        var j :| 0 <= j < |r| && r[j] == n;
        if j != k {
          assert r[j] == nodes[j];
        }
      }
    case None =>
  }

  /** Adding the external links keeps every node that is not a link, and adds only links with fresh ids. */
  lemma {:induction false} AddLinksKeepsOthers(nodes: seq<Node>, next: nat, files: seq<string>, timestamp: nat, url: UrlPathname)
    ensures var r := AddLinks(nodes, next, files, timestamp, url).0;
            (forall n :: n in nodes && !n.Link? ==> n in r)
            && (forall n :: n in r ==> n in nodes || (n.Link? && next <= n.id))
  {
    if files != [] {
      var init := files[..|files| - 1];
      AddLinksKeepsOthers(nodes, next, init, timestamp, url);
      var before := AddLinks(nodes, next, init, timestamp, url);
      if Normalize(Last(files)) !in NormSet(init) {
        AddOneKeepsOthers(before.0, before.1, Last(files), timestamp, url);
      }
    }
  }

  /** Moving a node to the end keeps the same nodes. */
  lemma MovedToEndMembers(before: seq<Node>, id: nat)
    ensures forall n :: n in MovedToEnd(before, id) <==> n in before
  {
    if IndexOfId(before, id, 0).Some? {
      MovedToEndIsLast(before, id);
      assert forall n :: n in MovedToEnd(before, id) <==> n in multiset(MovedToEnd(before, id));
    }
  }

  /** With distinct ids, the node moved to the end is the one carrying that id. */
  lemma MovedNodeIsLast(before: seq<Node>, next: nat, n: Node)
    requires IdsOk(before, next) && n in before
    ensures |MovedToEnd(before, n.id)| > 0 && Last(MovedToEnd(before, n.id)) == n
  {
    var j :| 0 <= j < |before| && before[j] == n;
    var k := IndexOfId(before, n.id, 0);
    assert k.Some?;
    assert k.value == j;
  }

  /** The external links added after preparing keep the custom style and add no old dynamic link. */
  lemma AddedAfterPrepare(p: seq<Node>, next: nat, next': nat, files: seq<string>, timestamp: nat, url: UrlPathname, style: Node)
    requires next <= next' && style in p && !style.Link?
    requires forall k :: 0 <= k < |p| && p[k].Link? && p[k].dynamic ==> false
    ensures var r := AddLinks(p, next', files, timestamp, url).0;
            style in r && forall n :: n in r && n.Link? && n.dynamic ==> next <= n.id
  {
    AddLinksKeepsOthers(p, next', files, timestamp, url);
  }

  /**
   * A whole reload: no dynamic link that was in the head before survives, the custom style
   * holding `customCss || ''` is in the head, and with a files list under any order but
   * `custom-first` it is the last node, after every external link.
   */
  lemma ReloadSpec(nodes: seq<Node>, next: nat, config: CssConfig, timestamp: nat, url: UrlPathname)
    requires IdsOk(nodes, next)
    ensures var r := Reload(nodes, next, config, timestamp, url).0;
            var style := Style(Prepare(nodes, next, config).2, CustomCssId, CustomText(config));
            (forall n :: n in r && n.Link? && n.dynamic ==> next <= n.id)
            && style in r
            && (config.externalCssFiles.Some? && config.cssLoadOrder != Some("custom-first") ==>
                  |r| > 0 && Last(r) == style)
  {
    var (p, next', sid) := Prepare(nodes, next, config);
    var style := Style(sid, CustomCssId, CustomText(config));
    PrepareSpec(nodes, next, config);
    PrepareKeepsIds(nodes, next, config);
    match config.externalCssFiles
    case None =>
    case Some(files) =>
      var added := AddLinks(p, next', files, timestamp, url);
      AddedAfterPrepare(p, next, next', files, timestamp, url, style);
      if config.cssLoadOrder != Some("custom-first") {
        AddLinksKeepsIds(p, next', files, timestamp, url);
        MovedToEndMembers(added.0, sid);
        MovedNodeIsLast(added.0, added.1, style);
      }
  }

  class Head {
    var nodes: seq<Node>
    /** The id the next created element gets. */
    var nextId: nat
    /** Ids of links that `updateCssFile` replaced and that are removed once their successor loads. */
    var pending: set<nat>

    ghost predicate Valid()
      reads this
    {
      IdsOk(nodes, nextId)
    }

    constructor (nodes: seq<Node>, nextId: nat)
      requires IdsOk(nodes, nextId)
      ensures Valid() && this.nodes == nodes && this.nextId == nextId && pending == {}
    {
      this.nodes := nodes;
      this.nextId := nextId;
      pending := {};
    }

    /**
     * `addExternalCssLinks(files, timestamp)`: each file whose normalised path was not seen
     * before gets a new dynamic link, in place of the link found for it or at the end.
     */
    method AddExternalCssLinks(files: seq<string>, timestamp: nat, url: UrlPathname)
      requires Valid()
      modifies this
      ensures Valid() && pending == old(pending)
      ensures (nodes, nextId) == AddLinks(old(nodes), old(nextId), files, timestamp, url)
    {
      ghost var nodes0, next0 := nodes, nextId;
      var processed: set<string> := {};
      var ns, next := nodes, nextId;
      for i := 0 to |files|
        invariant processed == NormSet(files[..i])
        invariant (ns, next) == AddLinks(nodes0, next0, files[..i], timestamp, url)
        invariant IdsOk(ns, next)
        invariant pending == old(pending)
      {
        var cssFile := files[i];
        assert files[..i + 1][..i] == files[..i] && Last(files[..i + 1]) == cssFile;
        NormSetSnoc(files[..i], cssFile);
        assert files[..i] + [cssFile] == files[..i + 1];
        var normalized := ReplaceChar(cssFile, '\\', '/');
        if normalized !in processed {
          processed := processed + {normalized};
          AddOneKeepsIds(ns, next, cssFile, timestamp, url);
          ns, next := AddStep(ns, next, cssFile, timestamp, url);
        }
      }
      assert files[..|files|] == files;
      nodes, nextId := ns, next;
    }

    /** The body of the loop above for one new file: find the old link, then replace or append. */
    static method AddStep(ns: seq<Node>, next: nat, cssFile: string, timestamp: nat, url: UrlPathname)
      returns (ns': seq<Node>, next': nat)
      ensures (ns', next') == AddOne(ns, next, cssFile, timestamp, url)
    {
      var existing := FindCssLinkTag(ns, cssFile, url);
      var link := ExternalLink(next, cssFile, timestamp);
      FindLinkSpec(ns, cssFile, url);
      if existing.Some? {
        ns' := ReplaceNode(ns, existing.value, link);
      } else {
        ns' := ns + [link];
      }
      next' := next + 1;
    }

    /**
     * `reloadAllCss(config)`: every dynamic link goes, the custom style (created at the end if
     * missing) gets the configured text, and with a files list the external links are added —
     * after the style under `custom-first`, otherwise with the style moved to the end.
     */
    method ReloadAllCss(config: CssConfig, timestamp: nat, url: UrlPathname)
      requires Valid()
      modifies this
      ensures Valid() && pending == old(pending)
      ensures (nodes, nextId) == Reload(old(nodes), old(nextId), config, timestamp, url)
    {
      var ns, next, styleId := PrepareHead(nodes, nextId, config);
      nodes, nextId := ns, next;
      if config.externalCssFiles.Some? {
        AddExternalCssLinks(config.externalCssFiles.value, timestamp, url);
        if config.cssLoadOrder != Some("custom-first") {
          MoveToEnd(styleId);
        }
      }
    }

    /** The first part of a reload: the dynamic links removed, the custom style found or appended, its text set. */
    static method PrepareHead(nodes: seq<Node>, next: nat, config: CssConfig) returns (ns: seq<Node>, next': nat, styleId: nat)
      requires IdsOk(nodes, next)
      ensures (ns, next', styleId) == Prepare(nodes, next, config)
      ensures IdsOk(ns, next')
    {
      var w := RemoveDynamicLinks(nodes);
      WithoutDynamicKeepsIds(nodes, next);
      var found := FindCustomStyle(w, 0);
      if found.None? {
        InsertKeepsIds(w, next, |w|, Style(next, CustomCssId, ""));
        var appended := w + [Style(next, CustomCssId, "")];
        var at := |appended| - 1;
        styleId := next;
        ns := appended[at := appended[at].(text := CustomText(config))];
        assert ns == w + [Style(next, CustomCssId, CustomText(config))];
        next' := next + 1;
      } else {
        var at := found.value;
        styleId := w[at].id;
        ns := w[at := w[at].(text := CustomText(config))];
        next' := next;
      }
      assert IdsOk(ns, next');
    }

    /** `document.head.appendChild(customStyleTag)` on a node already in the head: it moves to the end. */
    method MoveToEnd(id: nat)
      requires Valid()
      modifies this
      ensures Valid() && nextId == old(nextId) && pending == old(pending)
      ensures nodes == MovedToEnd(old(nodes), id)
    {
      var k := IndexOfId(nodes, id, 0);
      if k.Some? {
        var n := nodes[k.value];
        RemoveKeepsIds(nodes, nextId, k.value);
        var rest := RemoveNode(nodes, k.value);
        forall j | 0 <= j < |rest| ensures rest[j].id != n.id {
          if j < k.value {
            assert rest[j] == nodes[j];
          } else {
            assert rest[j] == nodes[j + 1];
          }
        }
        nodes := rest + [n];
      }
    }

    /** Removes the dynamic links one by one, in document order. */
    static method RemoveDynamicLinks(ns: seq<Node>) returns (r: seq<Node>)
      ensures r == WithoutDynamic(ns)
    {
      r := [];
      for i := 0 to |ns|
        invariant r == WithoutDynamic(ns[..i])
      {
        assert ns[..i + 1][..i] == ns[..i] && Last(ns[..i + 1]) == ns[i];
        if !(ns[i].Link? && ns[i].dynamic) {
          r := r + [ns[i]];
        }
      }
      assert ns[..|ns|] == ns;
    }

    /**
     * `updateCssFile(cssFile, uri, timestamp)`: with a link found, the new link goes just before
     * it and the old one is scheduled for removal; without one, the new link goes after the last
     * link whose href holds the file name, or at the end.
     */
    method UpdateCssFile(cssFile: string, uri: string, timestamp: nat, url: UrlPathname)
      requires Valid()
      modifies this
      ensures Valid() && nextId == old(nextId) + 1
      ensures var link := Link(old(nextId), Some(cssFile), uri + "?t=" + NatToString(timestamp), true, false);
              match FindLink(old(nodes), cssFile, url)
              case Some(k) =>
                k < |old(nodes)| && nodes == InsertBefore(old(nodes), k, link)
                && pending == old(pending) + {old(nodes)[k].id}
              case None =>
                pending == old(pending)
                && match LastSimilar(old(nodes), BaseName(cssFile))
                   case Some(j) => j < |old(nodes)| && nodes == InsertBefore(old(nodes), j + 1, link)
                   case None => nodes == old(nodes) + [link]
    {
      var link := Link(nextId, Some(cssFile), uri + "?t=" + NatToString(timestamp), true, false);
      var ns, replaced := InsertUpdated(nodes, nextId, link, cssFile, url);
      if replaced.Some? {
        pending := pending + {nodes[replaced.value].id};
      }
      nodes, nextId := ns, nextId + 1;
    }

    /** Where `updateCssFile` puts its new link, and the position of the link it replaces. */
    static method InsertUpdated(nodes: seq<Node>, next: nat, link: Node, cssFile: string, url: UrlPathname)
      returns (ns: seq<Node>, replaced: Option<nat>)
      requires IdsOk(nodes, next) && link.id == next
      ensures IdsOk(ns, next + 1) && replaced == FindLink(nodes, cssFile, url)
      ensures match replaced
              case Some(k) => k < |nodes| && ns == InsertBefore(nodes, k, link)
              case None =>
                match LastSimilar(nodes, BaseName(cssFile))
                case Some(j) => j < |nodes| && ns == InsertBefore(nodes, j + 1, link)
                case None => ns == nodes + [link]
    {
      replaced := FindCssLinkTag(nodes, cssFile, url);
      if replaced.Some? {
        InsertKeepsIds(nodes, next, replaced.value, link);
        ns := InsertBefore(nodes, replaced.value, link);
      } else {
        var similar := LastSimilar(nodes, BaseName(cssFile));
        var at := if similar.Some? then similar.value + 1 else |nodes|;
        InsertKeepsIds(nodes, next, at, link);
        ns := InsertBefore(nodes, at, link);
        assert similar.None? ==> ns == nodes + [link];
      }
    }

    /**
     * The old link's successor has loaded, or five seconds have passed: a link scheduled for
     * removal goes if it is still in the head.
     */
    method RemoveReplacedLink(id: nat)
      requires Valid()
      modifies this
      ensures Valid() && nextId == old(nextId) && pending == old(pending) - {id}
      ensures id in old(pending) && IndexOfId(old(nodes), id, 0).Some? ==>
                nodes == RemoveNode(old(nodes), IndexOfId(old(nodes), id, 0).value)
      ensures !(id in old(pending) && IndexOfId(old(nodes), id, 0).Some?) ==> nodes == old(nodes)
    {
      var k := IndexOfId(nodes, id, 0);
      if id in pending && k.Some? {
        RemoveKeepsIds(nodes, nextId, k.value);
        nodes := RemoveNode(nodes, k.value);
      }
      pending := pending - {id};
    }

    /** `handleCssFileDeleted(cssFile)`: the link found for the file goes, and nothing else. */
    method HandleCssFileDeleted(cssFile: string, url: UrlPathname)
      requires Valid()
      modifies this
      ensures Valid() && nextId == old(nextId) && pending == old(pending)
      ensures match FindLink(old(nodes), cssFile, url)
              case Some(k) => k < |old(nodes)| && nodes == RemoveNode(old(nodes), k)
              case None => nodes == old(nodes)
    {
      var linkTag := FindCssLinkTag(nodes, cssFile, url);
      FindLinkSpec(nodes, cssFile, url);
      if linkTag.Some? {
        RemoveKeepsIds(nodes, nextId, linkTag.value);
        nodes := RemoveNode(nodes, linkTag.value);
      }
    }
  }

  /** `cssFile.split(/[\/\\]/).pop() || ''`. */
  function BaseName(cssFile: string): (r: string)
    ensures r == "" || EndsWith(cssFile, r)
    ensures forall ch :: ch in r ==> ch != '/' && ch != '\\'
  {
    LastSegmentIsSuffix(cssFile, {'/', '\\'});
    OrElse(LastSegment(cssFile, {'/', '\\'}), "")
  }

  /** The position of the last link whose href holds `name`. */
  function LastSimilar(nodes: seq<Node>, name: string): (r: Option<nat>)
    ensures r.Some? ==> r.value < |nodes| && nodes[r.value].Link? && Contains(nodes[r.value].href, name)
    ensures r.Some? ==> forall k :: r.value < k < |nodes| ==> !(nodes[k].Link? && Contains(nodes[k].href, name))
    ensures r.None? ==> forall k :: 0 <= k < |nodes| ==> !(nodes[k].Link? && Contains(nodes[k].href, name))
  {
    if nodes == [] then None
    else if Last(nodes).Link? && Contains(Last(nodes).href, name) then Some(|nodes| - 1)
    else LastSimilar(nodes[..|nodes| - 1], name)
  }

  /**
   * Deleting a file's stylesheet removes exactly one node, the one found, and keeps the order
   * of all others.
   */
  lemma DeleteRemovesOnlyFound(nodes: seq<Node>, cssFile: string, url: UrlPathname)
    requires FindLink(nodes, cssFile, url).Some?
    ensures var k := FindLink(nodes, cssFile, url).value;
            k < |nodes| && multiset(RemoveNode(nodes, k)) + multiset{nodes[k]} == multiset(nodes)
  {
    var k := FindLink(nodes, cssFile, url).value;
    FindLinkSpec(nodes, cssFile, url);
    assert nodes == nodes[..k] + [nodes[k]] + nodes[k + 1..];
  }
}
