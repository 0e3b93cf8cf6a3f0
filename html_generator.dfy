/**
 * The webview's HTML: one entry per configured external stylesheet (a link, or a comment
 * when the path cannot be turned into a webview URI), the custom `<style>` placed before or
 * after them, and the page whose head lists the built-in stylesheets before all of these.
 *
 * `asWebviewUri` is the webview's URI conversion with `toString()` applied; `None` stands
 * for the exception it may throw.
 */
module HtmlGenerator {
  import opened Wrappers
  import opened Text
  import opened HostUtils

  /** What stylesheet resolution needs to know about the document and its surroundings. */
  datatype CssEnv = CssEnv(
    /** The markdown file's fsPath. */
    documentPath: string,
    /** The fsPath of the document's workspace folder, if it has one. */
    workspaceRoot: Option<string>,
    paths: PathOps,
    asWebviewUri: string -> Option<string>)

  function LinkTag(href: string): string {
    "<link href=\"" + href + "\" rel=\"stylesheet\">"
  }

  function RemoteLinkTag(href: string): string {
    "<link href=\"" + href + "\" rel=\"stylesheet\" crossorigin=\"anonymous\">"
  }

  function StyleTag(css: string): string {
    "<style>" + css + "</style>"
  }

  /**
   * Where a relative stylesheet path points: beside the markdown file when that file exists,
   * otherwise in the workspace folder, otherwise beside the markdown file all the same.
   */
  function ResolveRelative(cssFile: string, env: CssEnv): (p: string)
    ensures var besideDoc := env.paths.resolve(env.paths.dirname(env.documentPath), cssFile);
            (env.paths.existsSync(besideDoc) ==> p == besideDoc)
            && (!env.paths.existsSync(besideDoc) && env.workspaceRoot.Some? ==>
                  p == env.paths.resolve(env.workspaceRoot.value, cssFile))
            && (!env.paths.existsSync(besideDoc) && env.workspaceRoot.None? ==> p == besideDoc)
  {
    var relativeToMarkdown := env.paths.resolve(env.paths.dirname(env.documentPath), cssFile);
    if env.paths.existsSync(relativeToMarkdown) then relativeToMarkdown
    else match env.workspaceRoot
      case Some(root) => env.paths.resolve(root, cssFile)
      case None => relativeToMarkdown
  }

  /** `handleRelativeCssPath`: a link to the resolved file, or a comment when conversion fails. */
  function RelativeEntry(cssFile: string, env: CssEnv): string {
    match env.asWebviewUri(ResolveRelative(cssFile, env))
    case Some(uri) => LinkTag(uri)
    case None => "<!-- Failed to resolve CSS: " + cssFile + " -->"
  }

  /**
   * One entry of `generateExternalCssLinks`: an http(s) URL verbatim with `crossorigin`, an
   * absolute path through the webview URI (a comment if that fails), any other path resolved.
   */
  function ExternalEntry(cssFile: string, env: CssEnv): (e: string)
    ensures IsHttpUrl(cssFile) ==> e == RemoteLinkTag(cssFile)
    ensures !IsHttpUrl(cssFile) && env.paths.isAbsolute(cssFile) ==>
              e == (match env.asWebviewUri(cssFile)
                    case Some(uri) => LinkTag(uri)
                    case None => "<!-- Failed to load CSS: " + cssFile + " -->")
    ensures !IsHttpUrl(cssFile) && !env.paths.isAbsolute(cssFile) ==> e == RelativeEntry(cssFile, env)
  {
    if IsHttpUrl(cssFile) then RemoteLinkTag(cssFile)
    else if env.paths.isAbsolute(cssFile) then
      match env.asWebviewUri(cssFile)
      case Some(uri) => LinkTag(uri)
      case None => "<!-- Failed to load CSS: " + cssFile + " -->"
    else RelativeEntry(cssFile, env)
  }

  /** The entries of the configured files, in configured order. */
  function Entries(files: seq<string>, env: CssEnv): (r: seq<string>)
    ensures |r| == |files|
    ensures forall k :: 0 <= k < |files| ==> r[k] == ExternalEntry(files[k], env)
  {
    if files == [] then [] else [ExternalEntry(files[0], env)] + Entries(files[1..], env)
  }

  /** `generateExternalCssLinks`: the entries joined by newlines. */
  function ExternalCssLinks(files: seq<string>, env: CssEnv): string {
    Join(Entries(files, env), "\n")
  }

  /**
   * When no file name or URI holds a newline, the link list splits back into exactly one
   * entry per configured file, in order.
   */
  lemma ExternalCssLinksOnePerFile(files: seq<string>, env: CssEnv)
    requires |files| >= 1
    requires forall k, i :: 0 <= k < |files| && 0 <= i < |ExternalEntry(files[k], env)| ==> ExternalEntry(files[k], env)[i] != '\n'
    ensures Split(ExternalCssLinks(files, env), {'\n'}) == Entries(files, env)
    ensures |Split(ExternalCssLinks(files, env), {'\n'})| == |files|
  {
    var es := Entries(files, env);
    assert forall k, i :: 0 <= k < |es| && 0 <= i < |es[k]| ==> es[k][i] != '\n';
    SplitJoin(es, '\n');
  }

  /**
   * `generateCssContent`: no `<style>` for empty custom CSS; under `'external-first'` the
   * links come first, under any other order the style does.
   */
  function CssContent(customCss: string, cssLoadOrder: string, links: string): (r: string)
    ensures customCss == "" ==> r == links
    ensures customCss != "" && cssLoadOrder == "external-first" ==> r == links + "\n" + StyleTag(customCss)
    ensures customCss != "" && cssLoadOrder != "external-first" ==> r == StyleTag(customCss) + "\n" + links
  {
    var customCssStyle := if customCss != "" then StyleTag(customCss) else "";
    if cssLoadOrder == "external-first" then links + (if customCssStyle != "" then "\n" + customCssStyle else "")
    else (if customCssStyle != "" then customCssStyle + "\n" else "") + links
  }

  /**
   * The custom style is present exactly when the custom CSS is not empty; the links are a
   * prefix of the content under `'external-first'` and a suffix of it otherwise.
   */
  lemma CssContentOrder(customCss: string, cssLoadOrder: string, links: string)
    ensures cssLoadOrder == "external-first" ==> StartsWith(CssContent(customCss, cssLoadOrder, links), links)
    ensures cssLoadOrder != "external-first" ==> EndsWith(CssContent(customCss, cssLoadOrder, links), links)
    ensures customCss != "" ==> Contains(CssContent(customCss, cssLoadOrder, links), StyleTag(customCss))
    ensures |CssContent(customCss, cssLoadOrder, links)| == |links| + (if customCss == "" then 0 else |StyleTag(customCss)| + 1)
  {
    var r := CssContent(customCss, cssLoadOrder, links);
    var st := StyleTag(customCss);
    if customCss != "" {
      if cssLoadOrder == "external-first" {
        assert r[..|links|] == links;
        assert OccursAt(r, st, |links| + 1) by {
          assert r[|links| + 1..|links| + 1 + |st|] == st;
        }
      } else {
        assert r[|r| - |links|..] == links;
        assert OccursAt(r, st, 0) by {
          assert r[..|st|] == st;
        }
      }
      ContainsIff(r, st);
    }
  }

  /** The page up to the built-in stylesheet links. */
  function Prologue(baseHref: string): string {
    "<!DOCTYPE html>\n<html lang=\"en\">\n<head>\n  <meta charset=\"UTF-8\">\n"
    + "  <meta name=\"viewport\" content=\"width=device-width, initial-scale=1.0\">\n"
    + "  <base href=\"" + baseHref + "\" />\n  "
  }

  /** The page after the stylesheet content. */
  function Epilogue(scripts: string): string {
    "\n  <title>markdown editor</title>\n</head>\n<body>\n  <div id=\"app\"></div>\n  "
    + scripts + "\n</body>\n</html>"
  }

  function ScriptTag(src: string): string {
    "<script src=\"" + src + "\"></script>"
  }

  function MapLinks(hrefs: seq<string>): (r: seq<string>)
    ensures |r| == |hrefs| && forall k :: 0 <= k < |hrefs| ==> r[k] == LinkTag(hrefs[k])
  {
    if hrefs == [] then [] else [LinkTag(hrefs[0])] + MapLinks(hrefs[1..])
  }

  function MapScripts(srcs: seq<string>): (r: seq<string>)
    ensures |r| == |srcs| && forall k :: 0 <= k < |srcs| ==> r[k] == ScriptTag(srcs[k])
  {
    if srcs == [] then [] else [ScriptTag(srcs[0])] + MapScripts(srcs[1..])
  }

  /**
   * The parts of a generated page that vary: `baseHref`, the built-in stylesheet URIs and the
   * script URIs (the webview URIs of the document's directory and of the bundled files), and
   * the external and custom CSS content.
   */
  datatype Page = Page(baseHref: string, cssFiles: seq<string>, jsFiles: seq<string>, cssContent: string)

  /** The page's text: the fixed template around its parts. */
  function Render(p: Page): string {
    Prologue(p.baseHref) + Join(MapLinks(p.cssFiles), "\n") + "\n  " + p.cssContent
    + Epilogue(Join(MapScripts(p.jsFiles), "\n"))
  }

  /** `generate`, as its parts. */
  function PageOf(baseHref: string, cssFiles: seq<string>, jsFiles: seq<string>, customCss: string,
                  cssLoadOrder: string, externalCssFiles: seq<string>, env: CssEnv): (p: Page)
    ensures p.cssContent == CssContent(customCss, cssLoadOrder, ExternalCssLinks(externalCssFiles, env))
    ensures p.baseHref == baseHref && p.cssFiles == cssFiles && p.jsFiles == jsFiles
  {
    Page(baseHref, cssFiles, jsFiles, CssContent(customCss, cssLoadOrder, ExternalCssLinks(externalCssFiles, env)))
  }

  /** `generate`: the page's text. */
  function Generate(baseHref: string, cssFiles: seq<string>, jsFiles: seq<string>, customCss: string,
                    cssLoadOrder: string, externalCssFiles: seq<string>, env: CssEnv): string {
    Render(PageOf(baseHref, cssFiles, jsFiles, customCss, cssLoadOrder, externalCssFiles, env))
  }

  /** In the head, the built-in stylesheet links come first and the external and custom CSS after them. */
  lemma HeadOrder(baseHref: string, cssFiles: seq<string>, jsFiles: seq<string>, customCss: string,
                  cssLoadOrder: string, externalCssFiles: seq<string>, env: CssEnv)
    ensures var html := Generate(baseHref, cssFiles, jsFiles, customCss, cssLoadOrder, externalCssFiles, env);
            var builtIn := Join(MapLinks(cssFiles), "\n");
            var content := CssContent(customCss, cssLoadOrder, ExternalCssLinks(externalCssFiles, env));
            OccursAt(html, builtIn, |Prologue(baseHref)|)
            && OccursAt(html, content, |Prologue(baseHref)| + |builtIn| + 3)
  {
    var builtIn := Join(MapLinks(cssFiles), "\n");
    var content := CssContent(customCss, cssLoadOrder, ExternalCssLinks(externalCssFiles, env));
    PartsOccur(Prologue(baseHref), builtIn, "\n  ", content, Epilogue(Join(MapScripts(jsFiles), "\n")));
  }

  /** In `a + b + c + d + e`, `b` stands right after `a` and `d` right after `a + b + c`. */
  lemma PartsOccur(a: string, b: string, c: string, d: string, e: string)
    ensures OccursAt(a + b + c + d + e, b, |a|)
    ensures OccursAt(a + b + c + d + e, d, |a| + |b| + |c|)
  {
    var s := a + b + c + d + e;
    assert s[|a|..|a| + |b|] == b;
    assert s[|a| + |b| + |c|..|a| + |b| + |c| + |d|] == d;
  }
}
