/**
 * The visual editor's panel on the extension side: the one current panel, the title that
 * marks unsaved edits, the pushes of document changes to the webview, the reactions to
 * configuration changes, the watchers of local stylesheets, and disposal.
 *
 * Listeners are the entries of `disposables`: an event reaches the panel only while its
 * listener is registered. The 300 ms debounce of document changes is a flag set by a change
 * and consumed by the explicit `DebounceFires` step.
 */
module EditorPanel {
  import opened Wrappers
  import opened Text
  import opened Protocol
  import opened Config
  import opened HostUtils
  import opened HtmlGenerator
  import opened Workbench
  import opened MessageHandler

  /** The bundled assets of the page, as webview URIs. */
  datatype PageAssets = PageAssets(baseHref: string, cssFiles: seq<string>, jsFiles: seq<string>)

  /** What the panel needs from Node, the file system and the webview. */
  datatype PanelEnv = PanelEnv(
    paths: PathOps,
    /** The fsPath of the document's workspace folder, if it has one. */
    workspaceRoot: Option<string>,
    asWebviewUri: string -> Option<string>,
    createDirectory: string -> bool,
    page: PageAssets)

  /** The listeners the panel registers, in registration order. */
  datatype Listener = PanelDisposeListener | CloseListener | ChangeListener | ConfigListener | MessageListener

  const AllListeners: seq<Listener> := [PanelDisposeListener, CloseListener, ChangeListener, ConfigListener, MessageListener]

  /**
   * A watcher of one configured stylesheet: of the file itself when it exists, otherwise of
   * its directory, waiting for the file to be created.
   */
  datatype Watcher = FileWatcher(cssFile: string, fullPath: string) | DirectoryWatcher(cssFile: string, fullPath: string)

  /** A file-system event delivered to a watcher. */
  datatype FsEvent = Changed | Created(path: string) | Deleted

  function CssEnvOf(env: PanelEnv, uri: Uri): CssEnv {
    CssEnv(uri.fsPath, env.workspaceRoot, env.paths, env.asWebviewUri)
  }

  function HandlerEnvOf(env: PanelEnv, uri: Uri): HandlerEnv {
    HandlerEnv(uri.fsPath, env.workspaceRoot, env.paths, env.createDirectory)
  }

  /** `generateHtml` under configuration `c`. */
  function PageHtml(c: EditorConfig, env: PanelEnv, uri: Uri): Option<Page> {
    Some(PageOf(env.page.baseHref, env.page.cssFiles, env.page.jsFiles, c.customCss, c.cssLoadOrder,
                c.externalCssFiles, CssEnvOf(env, uri)))
  }

  /** The panel title: `[edit]` in front of the file name while there are unsaved edits. */
  function TitleFor(isEdit: bool, name: string): (t: string)
    ensures isEdit ==> t == "[edit]" + name
    ensures !isEdit ==> t == name
  {
    (if isEdit then "[edit]" else "") + name
  }

  /** The two titles differ, so the title tells whether the panel shows unsaved edits. */
  lemma TitleTellsDirty(name: string)
    ensures TitleFor(true, name) != TitleFor(false, name)
    ensures StartsWith(TitleFor(true, name), "[edit]") && EndsWith(TitleFor(true, name), name)
  {
    assert |TitleFor(true, name)| == |name| + 6;
  }

  /** The configured stylesheets that are watched: the ones that are not http(s) URLs, in order. */
  function LocalCssFiles(files: seq<string>): (r: seq<string>)
    ensures |r| <= |files|
  {
    if files == [] then []
    else (if IsHttpUrl(files[0]) then [] else [files[0]]) + LocalCssFiles(files[1..])
  }

  /** The filter keeps exactly the configured files that are not http(s) URLs. */
  lemma {:induction false} LocalCssFilesExact(files: seq<string>)
    ensures forall f :: f in LocalCssFiles(files) <==> f in files && !IsHttpUrl(f)
  {
    if files != [] {
      LocalCssFilesExact(files[1..]);
      assert files == [files[0]] + files[1..];
    }
  }

  /** The path a configured stylesheet is watched at. */
  function WatchedPath(cssFile: string, env: PanelEnv, uri: Uri): string {
    if env.paths.isAbsolute(cssFile) then cssFile else ResolveRelative(cssFile, CssEnvOf(env, uri))
  }

  /** The watcher created for one local stylesheet, if its file or its directory exists. */
  function WatcherFor(cssFile: string, env: PanelEnv, uri: Uri): (w: Option<Watcher>)
    ensures w.Some? ==> w.value.cssFile == cssFile && w.value.fullPath == WatchedPath(cssFile, env, uri)
    ensures w.Some? && w.value.FileWatcher? <==> env.paths.existsSync(WatchedPath(cssFile, env, uri))
    ensures w.None? <==> !env.paths.existsSync(WatchedPath(cssFile, env, uri))
                         && !env.paths.existsSync(env.paths.dirname(WatchedPath(cssFile, env, uri)))
  {
    var fullPath := WatchedPath(cssFile, env, uri);
    if env.paths.existsSync(fullPath) then Some(FileWatcher(cssFile, fullPath))
    else if env.paths.existsSync(env.paths.dirname(fullPath)) then Some(DirectoryWatcher(cssFile, fullPath))
    else None
  }

  /** The watchers of a list of files, in order; files with neither file nor directory get none. */
  function WatchersFor(files: seq<string>, env: PanelEnv, uri: Uri): seq<Watcher>
    decreases |files|
  {
    if files == [] then []
    else
      var w := WatcherFor(Last(files), env, uri);
      WatchersFor(files[..|files| - 1], env, uri) + (if w.Some? then [w.value] else [])
  }

  /** Every watcher belongs to one of the files, at most one per file, and only local files are watched. */
  lemma {:induction false} WatchersOfFiles(files: seq<string>, env: PanelEnv, uri: Uri)
    ensures |WatchersFor(files, env, uri)| <= |files|
    ensures forall k :: 0 <= k < |WatchersFor(files, env, uri)| ==> WatchersFor(files, env, uri)[k].cssFile in files
    decreases |files|
  {
    if files != [] {
      var init := files[..|files| - 1];
      WatchersOfFiles(init, env, uri);
      assert forall f :: f in init ==> f in files;
      assert Last(files) in files;
    }
  }

  /** Only non-http stylesheets are ever watched. */
  lemma WatchersAreLocal(files: seq<string>, env: PanelEnv, uri: Uri)
    ensures var ws := WatchersFor(LocalCssFiles(files), env, uri);
            |ws| <= |files|
            && forall k :: 0 <= k < |ws| ==> ws[k].cssFile in files && !IsHttpUrl(ws[k].cssFile)
  {
    WatchersOfFiles(LocalCssFiles(files), env, uri);
    LocalCssFilesExact(files);
  }

  /**
   * `updateCssFile`: nothing when the file is gone or has no webview URI; otherwise one
   * `update-css` naming the configured path (the full path when that is empty).
   */
  function UpdateCssMessages(fullPath: string, originalPath: string, timestamp: int, env: PanelEnv): (ms: seq<ToWebview>)
    ensures !env.paths.existsSync(fullPath) || env.asWebviewUri(fullPath).None? ==> ms == []
    ensures env.paths.existsSync(fullPath) && env.asWebviewUri(fullPath).Some? ==>
              ms == [UpdateCss(if originalPath == "" then fullPath else originalPath, fullPath,
                               env.asWebviewUri(fullPath).value, timestamp)]
  {
    if !env.paths.existsSync(fullPath) then []
    else match env.asWebviewUri(fullPath)
      case None => []
      case Some(webviewUri) => [UpdateCss(OrElse(originalPath, fullPath), fullPath, webviewUri, timestamp)]
  }

  /** What a watcher posts for one event. */
  function WatcherMessages(w: Watcher, ev: FsEvent, timestamp: int, env: PanelEnv): seq<ToWebview> {
    match w
    case FileWatcher(cssFile, fullPath) =>
      if ev.Deleted? then [CssFileDeleted(cssFile)] else UpdateCssMessages(fullPath, cssFile, timestamp, env)
    case DirectoryWatcher(cssFile, fullPath) =>
      if ev.Created? && ev.path == fullPath then UpdateCssMessages(fullPath, cssFile, timestamp, env) else []
  }

  /**
   * A file watcher reports a deletion as `css-file-deleted` and a change or creation as at most
   * one `update-css`; a directory watcher reacts only to the creation of its own file.
   */
  lemma WatcherReactions(w: Watcher, ev: FsEvent, timestamp: int, env: PanelEnv)
    ensures w.FileWatcher? && ev.Deleted? ==> WatcherMessages(w, ev, timestamp, env) == [CssFileDeleted(w.cssFile)]
    ensures |WatcherMessages(w, ev, timestamp, env)| <= 1
    ensures w.DirectoryWatcher? && !(ev.Created? && ev.path == w.fullPath) ==> WatcherMessages(w, ev, timestamp, env) == []
    ensures forall k :: 0 <= k < |WatcherMessages(w, ev, timestamp, env)| && WatcherMessages(w, ev, timestamp, env)[k].UpdateCss? ==>
              WatcherMessages(w, ev, timestamp, env)[k].fullPath == w.fullPath
              && WatcherMessages(w, ev, timestamp, env)[k].timestamp == timestamp
  {
  }

  /** The configuration sent with `reload-all-css`. */
  function CssReload(c: EditorConfig): ToWebview {
    ReloadAllCss(map["externalCssFiles" := Strs(c.externalCssFiles), "customCss" := Str(c.customCss),
                     "cssLoadOrder" := Str(c.cssLoadOrder)])
  }

  /** The `config-update` of an outline change: the four outline fields. */
  function OutlineUpdate(c: EditorConfig): ToWebview {
    ConfigUpdate(Some(map["showOutlineByDefault" := Bool(c.showOutlineByDefault),
                          "outlinePosition" := Str(c.outlinePosition),
                          "outlineWidth" := Num(c.outlineWidth),
                          "useVscodeThemeColor" := Bool(c.useVscodeThemeColor)]))
  }

  /** The `config-update` of a toolbar change: only `showToolbar`. */
  function ToolbarUpdate(c: EditorConfig): ToWebview {
    ConfigUpdate(Some(map["showToolbar" := Bool(c.showToolbar)]))
  }

  /** Whether a CSS change touches the custom CSS or the load order, which needs a new page. */
  predicate NeedsNewPage(e: ChangeEvent) {
    IsCssConfigChanged(e) && (e(CustomCssKey) || e(CssLoadOrderKey))
  }

  /** The messages posted for one configuration change, in posting order. */
  function ConfigMessages(e: ChangeEvent, c: EditorConfig): seq<ToWebview> {
    (if IsCssConfigChanged(e) && !NeedsNewPage(e) then [CssReload(c)] else [])
    + (if IsOutlineConfigChanged(e) then [OutlineUpdate(c)] else [])
    + (if IsToolbarConfigChanged(e) then [ToolbarUpdate(c)] else [])
  }

  /**
   * A change of the stylesheet list alone sends one `reload-all-css`; a change of the custom
   * CSS or the load order sends none (the page is rebuilt instead). Outline and toolbar
   * changes each send one `config-update` with exactly their own fields, and both can come
   * from one event.
   */
  lemma ConfigMessageSelection(e: ChangeEvent, c: EditorConfig)
    ensures var ms := ConfigMessages(e, c);
            (CssReload(c) in ms <==> e(ExternalCssFilesKey) && !e(CustomCssKey) && !e(CssLoadOrderKey))
            && (OutlineUpdate(c) in ms <==> IsOutlineConfigChanged(e))
            && (ToolbarUpdate(c) in ms <==> IsToolbarConfigChanged(e))
            && |ms| == (if CssReload(c) in ms then 1 else 0) + (if IsOutlineConfigChanged(e) then 1 else 0)
                       + (if IsToolbarConfigChanged(e) then 1 else 0)
    ensures OutlineUpdate(c).config.value.Keys == {"showOutlineByDefault", "outlinePosition", "outlineWidth", "useVscodeThemeColor"}
    ensures ToolbarUpdate(c).config.value.Keys == {"showToolbar"}
    ensures CssReload(c) != OutlineUpdate(c) && OutlineUpdate(c) != ToolbarUpdate(c)
  {
    assert OutlineUpdate(c).config.value != ToolbarUpdate(c).config.value by {
      assert "showToolbar" !in OutlineUpdate(c).config.value;
    }
  }

  function Reverse<T>(s: seq<T>): (r: seq<T>)
    ensures |r| == |s|
    ensures forall i :: 0 <= i < |s| ==> r[i] == s[|s| - 1 - i]
  {
    if s == [] then [] else Reverse(s[1..]) + [s[0]]
  }

  /** `EditorPanel.currentPanel` and the static operations on it. */
  class Registry {
    var current: EditorPanel?
    const host: Host

    /** The current panel belongs to this registry and is wired to the host. */
    ghost predicate Valid()
      reads this
    {
      current != null ==> current.registry == this && current.host == host && current.Wired()
    }

    constructor (host: Host)
      ensures this.host == host && current == null && Valid()
    {
      this.host := host;
      current := null;
    }

    /**
     * `createOrShow`: a current panel for another URI object (or for no URI) is disposed; a
     * current panel for the same URI object is only revealed. Otherwise the document is the
     * one opened from the URI, or the active editor's, which must be markdown; the new panel
     * becomes the current one.
     */
    method CreateOrShow(uri: Option<Uri>, activeDocument: TextDocument?, openTextDocument: Uri -> TextDocument, env: PanelEnv)
      requires Valid()
      modifies this, host, if current != null then {current, current.panel} else {}
      ensures Valid()
      ensures old(current) != null && uri == Some(old(current).uri) ==>
                current == old(current) && current.panel.revealCount == old(current.panel.revealCount) + 1
                && host.notices == old(host.notices)
      ensures old(current) != null && uri != Some(old(current).uri) ==>
                old(current).panel.disposed && old(current).disposables == []
      ensures (old(current) == null || uri != Some(old(current).uri)) && uri.None? && activeDocument == null ==>
                current == null && host.notices == old(host.notices) + [ShowError("Did not open markdown file!")]
      ensures (old(current) == null || uri != Some(old(current).uri)) && uri.None? && activeDocument != null
              && activeDocument.languageId != "markdown" ==>
                current == null
                && host.notices == old(host.notices) + [ShowError("Current file language is not markdown, got " + activeDocument.languageId)]
      ensures (old(current) == null || uri != Some(old(current).uri))
              && (uri.Some? || (activeDocument != null && activeDocument.languageId == "markdown")) ==>
                var doc := if uri.Some? then openTextDocument(uri.value) else activeDocument;
                current != null && fresh(current) && fresh(current.panel)
                && current.document == doc && current.uri == uri.GetOr(doc.uri)
                && current.panel.title == env.paths.basename(current.uri.fsPath)
                && current.panel.html == PageHtml(GetEditorConfig(host.settings), env, current.uri)
                && current.disposables == AllListeners && host.notices == old(host.notices)
    {
      if current != null && uri != Some(current.uri) {
        current.Dispose();
      }
      if current != null {
        current.panel.revealCount := current.panel.revealCount + 1;
        return;
      }
      if activeDocument == null && uri.None? {
        host.notices := host.notices + [ShowError("Did not open markdown file!")];
        return;
      }
      var doc: TextDocument;
      if uri.Some? {
        doc := openTextDocument(uri.value);
      } else {
        doc := activeDocument;
        if doc.languageId != "markdown" {
          host.notices := host.notices + [ShowError("Current file language is not markdown, got " + doc.languageId)];
          return;
        }
      }
      current := new EditorPanel(this, host, doc, uri.GetOr(doc.uri), env);
    }

    /** `openFindDialog`: one `open-find-dialog` to the current panel, and nothing without one. */
    method OpenFindDialog(showReplace: bool)
      modifies if current != null then {current.panel} else {}
      ensures current != null ==> current.panel.posted == old(current.panel.posted) + [ToWebview.OpenFindDialog(showReplace)]
    {
      if current != null {
        current.panel.posted := current.panel.posted + [ToWebview.OpenFindDialog(showReplace)];
      }
    }
  }

  /** One visual editor panel, bound to one document. */
  class EditorPanel {
    const registry: Registry
    const host: Host
    const panel: WebviewPanel
    const document: TextDocument
    /** `dependencies.uri`: the URI the panel was opened for. */
    const uri: Uri
    const env: PanelEnv
    const handler: MessageHandler
    /** `_isEdit`: the dirty flag the title was last written for. */
    var isEdit: bool
    /** `_cssFileWatchers`. */
    var watchers: seq<Watcher>
    /** Watchers that were disposed by a rebuild, in disposal order. */
    var retiredWatchers: seq<Watcher>
    /** `_disposables`: the registered listeners. */
    var disposables: seq<Listener>
    /** Listeners disposed so far, in disposal order. */
    var disposedListeners: seq<Listener>
    /** Whether the debounce timer of a document change is running. */
    var pendingPush: bool

    /** The message handler works on this panel's host, webview and document. */
    predicate Wired() {
      handler.host == host && handler.panel == panel && handler.document == document
      && handler.env.fsPath == uri.fsPath && handler.env.workspaceRoot == env.workspaceRoot
    }

    /** The file name shown in the title. */
    function Name(): string {
      env.paths.basename(uri.fsPath)
    }

    /**
     * The constructor: the page, the title (the file name), the dispose listener, the
     * stylesheet watchers, then the document, configuration and message listeners.
     */
    constructor (registry: Registry, host: Host, document: TextDocument, uri: Uri, env: PanelEnv)
      ensures this.registry == registry && this.host == host && this.document == document
      ensures this.uri == uri && this.env == env && Wired()
      ensures fresh(panel) && fresh(handler)
      ensures panel.html == PageHtml(GetEditorConfig(host.settings), env, uri)
      ensures panel.title == Name() && !isEdit && panel.title == TitleFor(isEdit, Name())
      ensures panel.posted == [] && !panel.active && !panel.disposed && panel.revealCount == 0
      ensures watchers == WatchersFor(LocalCssFiles(GetEditorConfig(host.settings).externalCssFiles), env, uri)
      ensures disposables == AllListeners && disposedListeners == [] && !pendingPush
    {
      this.registry := registry;
      this.host := host;
      this.document := document;
      this.uri := uri;
      this.env := env;
      var p := new WebviewPanel();
      panel := p;
      handler := new MessageHandler(host, p, document, HandlerEnvOf(env, uri));
      isEdit := false;
      watchers := [];
      retiredWatchers := [];
      disposables := [];
      disposedListeners := [];
      pendingPush := false;
      new;
      Initialize();
      disposables := disposables + [CloseListener, ChangeListener, ConfigListener, MessageListener];
    }

    /** `initialize`: the page, the title (the file name), the dispose listener, the stylesheet watchers. */
    method Initialize()
      requires disposables == [] && watchers == []
      modifies this, panel
      ensures panel.html == PageHtml(GetEditorConfig(host.settings), env, uri) && panel.title == Name()
      ensures panel.posted == old(panel.posted) && panel.active == old(panel.active)
      ensures panel.disposed == old(panel.disposed) && panel.revealCount == old(panel.revealCount)
      ensures watchers == WatchersFor(LocalCssFiles(GetEditorConfig(host.settings).externalCssFiles), env, uri)
      ensures disposables == [PanelDisposeListener]
      ensures isEdit == old(isEdit) && disposedListeners == old(disposedListeners) && pendingPush == old(pendingPush)
    {
      var c := GetEditorConfig(host.settings);
      GeneratePage(c);
      panel.title := env.paths.basename(uri.fsPath);
      disposables := disposables + [PanelDisposeListener];
      SetupCssFileWatchers(c);
    }

    /**
     * `updateEditTitle`: the flag follows the document's dirty state, and the title is
     * rewritten only when the flag changes.
     */
    method UpdateEditTitle()
      modifies this, panel
      ensures isEdit == document.IsDirty()
      ensures old(isEdit) == isEdit ==> panel.title == old(panel.title)
      ensures old(isEdit) != isEdit ==> panel.title == TitleFor(isEdit, Name())
      ensures old(panel.title) == TitleFor(old(isEdit), Name()) ==> panel.title == TitleFor(isEdit, Name())
      ensures panel.html == old(panel.html) && panel.posted == old(panel.posted) && panel.active == old(panel.active)
      ensures panel.disposed == old(panel.disposed) && panel.revealCount == old(panel.revealCount)
      ensures watchers == old(watchers) && retiredWatchers == old(retiredWatchers) && pendingPush == old(pendingPush)
      ensures disposables == old(disposables) && disposedListeners == old(disposedListeners)
    {
      var dirty := document.IsDirty();
      if dirty != isEdit {
        isEdit := dirty;
        panel.title := TitleFor(dirty, env.paths.basename(uri.fsPath));
      }
    }

    /** `setupCssFileWatchers`: the old watchers are disposed, then one is built per local stylesheet. */
    method SetupCssFileWatchers(c: EditorConfig)
      modifies this
      ensures watchers == WatchersFor(LocalCssFiles(c.externalCssFiles), env, uri)
      ensures retiredWatchers == old(retiredWatchers) + old(watchers)
      ensures isEdit == old(isEdit) && pendingPush == old(pendingPush)
      ensures disposables == old(disposables) && disposedListeners == old(disposedListeners)
    {
      retiredWatchers := retiredWatchers + watchers;
      watchers := [];
      var local := LocalCssFiles(c.externalCssFiles);
      for i := 0 to |local|
        invariant watchers == WatchersFor(local[..i], env, uri)
        invariant retiredWatchers == old(retiredWatchers) + old(watchers)
        invariant isEdit == old(isEdit) && pendingPush == old(pendingPush)
        invariant disposables == old(disposables) && disposedListeners == old(disposedListeners)
      {
        assert local[..i + 1][..i] == local[..i];
        var w := WatcherFor(local[i], env, uri);
        if w.Some? {
          watchers := watchers + [w.value];
        }
      }
      assert local[..|local|] == local;
    }

    /** A watcher of the current list receives a file-system event; retired watchers are silent. */
    method WatcherEvent(k: nat, ev: FsEvent, timestamp: int)
      modifies panel
      ensures k < |watchers| ==> panel.posted == old(panel.posted) + WatcherMessages(watchers[k], ev, timestamp, env)
      ensures k >= |watchers| ==> panel.posted == old(panel.posted)
      ensures panel.html == old(panel.html) && panel.title == old(panel.title) && panel.active == old(panel.active)
      ensures panel.disposed == old(panel.disposed) && panel.revealCount == old(panel.revealCount)
    {
      if k < |watchers| {
        panel.posted := panel.posted + WatcherMessages(watchers[k], ev, timestamp, env);
      }
    }

    /** A document change: only for this document, and only while the panel is not active, starts the timer. */
    method DocumentChanged(fileName: string)
      modifies this
      ensures pendingPush == (old(pendingPush)
                              || (ChangeListener in disposables && fileName == document.uri.fsPath && !panel.active))
      ensures isEdit == old(isEdit) && watchers == old(watchers) && retiredWatchers == old(retiredWatchers)
      ensures disposables == old(disposables) && disposedListeners == old(disposedListeners)
    {
      if ChangeListener in disposables && fileName == document.uri.fsPath && !panel.active {
        pendingPush := true;
      }
    }

    /**
     * The debounce timer fires: one `update` of type `update` with the document's text and
     * the theme, then the title follows the dirty state. Without a running timer nothing happens.
     */
    method DebounceFires()
      modifies this, panel
      ensures !pendingPush
      ensures !old(pendingPush) ==> panel.posted == old(panel.posted) && panel.title == old(panel.title) && isEdit == old(isEdit)
      ensures old(pendingPush) ==>
                panel.posted == old(panel.posted) + [Update(document.text, "update", None, Some(GetCurrentTheme(host.theme)))]
                && isEdit == document.IsDirty()
      ensures old(panel.title) == TitleFor(old(isEdit), Name()) ==> panel.title == TitleFor(isEdit, Name())
      ensures panel.html == old(panel.html) && panel.disposed == old(panel.disposed)
      ensures disposables == old(disposables) && watchers == old(watchers)
    {
      if pendingPush {
        pendingPush := false;
        panel.posted := panel.posted + [Update(document.text, "update", None, Some(GetCurrentTheme(host.theme)))];
        UpdateEditTitle();
      }
    }

    /**
     * A configuration change, read after the settings changed: a stylesheet change rebuilds
     * the page when the custom CSS or the load order is affected and otherwise rebuilds the
     * watchers and asks for a reload; outline and toolbar changes post their fields.
     */
    method ConfigChanged(e: ChangeEvent)
      modifies this, panel
      ensures var c := GetEditorConfig(host.settings);
              var on := ConfigListener in old(disposables);
              (on ==> panel.posted == old(panel.posted) + ConfigMessages(e, c))
              && (!on ==> panel.posted == old(panel.posted))
              && (on && NeedsNewPage(e) ==> panel.html == PageHtml(c, env, uri))
              && (!(on && NeedsNewPage(e)) ==> panel.html == old(panel.html))
              && (on && IsCssConfigChanged(e) && !NeedsNewPage(e) ==>
                    watchers == WatchersFor(LocalCssFiles(c.externalCssFiles), env, uri)
                    && retiredWatchers == old(retiredWatchers) + old(watchers))
              && (!(on && IsCssConfigChanged(e) && !NeedsNewPage(e)) ==>
                    watchers == old(watchers) && retiredWatchers == old(retiredWatchers))
      ensures panel.title == old(panel.title) && isEdit == old(isEdit) && panel.disposed == old(panel.disposed)
      ensures disposables == old(disposables) && pendingPush == old(pendingPush)
    {
      if ConfigListener !in disposables {
        return;
      }
      var c := GetEditorConfig(host.settings);
      var posts := CssConfigChanged(e, c);
      if IsOutlineConfigChanged(e) {
        posts := posts + [OutlineUpdate(c)];
      }
      if IsToolbarConfigChanged(e) {
        posts := posts + [ToolbarUpdate(c)];
      }
      panel.posted := panel.posted + posts;
    }

    /**
     * The stylesheet part of a configuration change: a new page, or new watchers and the
     * `reload-all-css` to post.
     */
    method CssConfigChanged(e: ChangeEvent, c: EditorConfig) returns (posts: seq<ToWebview>)
      modifies this, panel
      ensures posts == (if IsCssConfigChanged(e) && !NeedsNewPage(e) then [CssReload(c)] else [])
      ensures NeedsNewPage(e) ==> panel.html == PageHtml(c, env, uri)
      ensures !NeedsNewPage(e) ==> panel.html == old(panel.html)
      ensures IsCssConfigChanged(e) && !NeedsNewPage(e) ==>
                watchers == WatchersFor(LocalCssFiles(c.externalCssFiles), env, uri)
                && retiredWatchers == old(retiredWatchers) + old(watchers)
      ensures !(IsCssConfigChanged(e) && !NeedsNewPage(e)) ==> watchers == old(watchers) && retiredWatchers == old(retiredWatchers)
      ensures panel.posted == old(panel.posted) && panel.title == old(panel.title) && panel.disposed == old(panel.disposed)
      ensures isEdit == old(isEdit) && disposables == old(disposables) && pendingPush == old(pendingPush)
    {
      posts := [];
      if IsCssConfigChanged(e) {
        if e(CustomCssKey) || e(CssLoadOrderKey) {
          GeneratePage(c);
        } else {
          SetupCssFileWatchers(c);
          posts := [CssReload(c)];
        }
      }
    }

    /** `generateHtml` written to the webview. */
    method GeneratePage(c: EditorConfig)
      modifies panel
      ensures panel.html == PageHtml(c, env, uri)
      ensures panel.title == old(panel.title) && panel.posted == old(panel.posted) && panel.active == old(panel.active)
      ensures panel.disposed == old(panel.disposed) && panel.revealCount == old(panel.revealCount)
    {
      panel.html := PageHtml(c, env, uri);
    }

    /** A message from the webview goes to the handler; the title follows when it asks for that. */
    method ReceiveMessage(m: ToHost)
      requires Wired()
      modifies this, host, panel, document
      ensures MessageListener in old(disposables) ==> handler.View() == Dispatch(old(handler.View()), m, handler.env).0
      ensures MessageListener in old(disposables) && Dispatch(old(handler.View()), m, handler.env).1 ==> isEdit == document.IsDirty()
      ensures MessageListener !in old(disposables) ==> handler.View() == old(handler.View()) && panel.title == old(panel.title)
      ensures old(panel.title) == TitleFor(old(isEdit), Name()) ==> panel.title == TitleFor(isEdit, Name())
      ensures panel.html == old(panel.html) && panel.disposed == old(panel.disposed)
      ensures disposables == old(disposables) && watchers == old(watchers) && pendingPush == old(pendingPush)
    {
      if MessageListener !in disposables {
        return;
      }
      var refresh := handler.HandleMessage(m);
      if refresh {
        UpdateEditTitle();
      }
    }

    /** The document with this panel's path is closed: the panel is disposed. */
    method DocumentClosed(fileName: string)
      modifies this, registry, panel
      ensures CloseListener in old(disposables) && fileName == uri.fsPath ==>
                registry.current == null && panel.disposed && disposables == []
      ensures !(CloseListener in old(disposables) && fileName == uri.fsPath) ==>
                registry.current == old(registry.current) && panel.disposed == old(panel.disposed) && disposables == old(disposables)
      ensures panel.posted == old(panel.posted) && panel.title == old(panel.title)
    {
      if CloseListener in disposables && fileName == uri.fsPath {
        Dispose();
      }
    }

    /**
     * `dispose`: there is no current panel any more, the webview panel is disposed, and every
     * registered listener is popped and disposed, last registered first.
     */
    method Dispose()
      modifies this, registry, panel
      ensures registry.current == null && panel.disposed
      ensures disposables == []
      ensures disposedListeners == old(disposedListeners) + Reverse(old(disposables))
      ensures watchers == old(watchers) && isEdit == old(isEdit) && pendingPush == old(pendingPush)
      ensures panel.posted == old(panel.posted) && panel.title == old(panel.title) && panel.html == old(panel.html)
    {
      registry.current := null;
      panel.disposed := true;
      while |disposables| > 0
        invariant disposables == old(disposables)[..|disposables|]
        invariant disposedListeners == old(disposedListeners) + Reverse(old(disposables)[|disposables|..])
        invariant watchers == old(watchers) && isEdit == old(isEdit) && pendingPush == old(pendingPush)
        invariant registry.current == null && panel.disposed
        invariant panel.posted == old(panel.posted) && panel.title == old(panel.title) && panel.html == old(panel.html)
        decreases |disposables|
      {
        var n := |disposables|;
        var d := disposables[n - 1];
        assert old(disposables)[n - 1..][1..] == old(disposables)[n..];
        disposables := disposables[..n - 1];
        disposedListeners := disposedListeners + [d];
      }
    }
  }
}
