/**
 * The extension's dispatcher for messages from the webview. `Dispatch` says what each
 * command does to the host's state; `MessageHandler.HandleMessage` does it on the document,
 * the panel and the host, and returns whether the panel's title must be refreshed.
 *
 * What Node's `path`, the file system and the workspace would tell are parameters
 * (`HandlerEnv`). Message fields the source reads with `!` are always present here.
 */
module MessageHandler {
  import opened Wrappers
  import opened Text
  import opened Protocol
  import opened Config
  import opened HostUtils
  import opened Workbench

  /** What the handler knows about the document's place on disk. */
  datatype HandlerEnv = HandlerEnv(
    /** The fsPath of the panel's URI. */
    fsPath: string,
    workspaceRoot: Option<string>,
    paths: PathOps,
    /** Whether `workspace.fs.createDirectory` succeeds for a folder. */
    createDirectory: string -> bool)

  /** The state a message can change. */
  datatype HostView = HostView(
    text: string,
    savedText: string,
    active: bool,
    settings: Stored,
    globalOptions: Option<Options>,
    theme: ColorThemeKind,
    posted: seq<ToWebview>,
    notices: seq<Notice>,
    openedLinks: seq<string>,
    written: seq<(string, string)>)

  /** The options sent on `ready`: `{...config, ...(savedOptions || {})}`. */
  function ReadyOptions(settings: Stored, globalOptions: Option<Options>): (o: Options)
    ensures ToOptions(GetEditorConfig(settings)).Keys <= o.Keys
    ensures globalOptions.Some? ==> forall k :: k in globalOptions.value ==> k in o && o[k] == globalOptions.value[k]
    ensures forall k :: k in ToOptions(GetEditorConfig(settings)) && (globalOptions.None? || k !in globalOptions.value) ==>
              o[k] == ToOptions(GetEditorConfig(settings))[k]
  {
    Spread(ToOptions(GetEditorConfig(settings)), globalOptions.GetOr(map[]))
  }

  /** The reply to `ready`: the document text and the options, for editor initialisation. */
  function ReadyReply(v: HostView): (r: ToWebview)
    ensures r.Update? && r.kind == "init" && r.content == v.text
    ensures r.options.Some? && ToOptions(GetEditorConfig(v.settings)).Keys <= r.options.value.Keys
  {
    Update(v.text, "init", Some(ReadyOptions(v.settings, v.globalOptions)), Some(GetCurrentTheme(v.theme)))
  }

  /** The folder uploaded files go to. */
  function AssetsFolder(v: HostView, env: HandlerEnv): string {
    GetAssetsFolder(GetEditorConfig(v.settings).imageSaveFolder, env.workspaceRoot, env.fsPath, env.paths)
  }

  /** The files an upload writes: each name joined to the folder, with its content. */
  function UploadTargets(files: seq<UploadFile>, folder: string, env: HandlerEnv): (r: seq<(string, string)>)
    ensures |r| == |files|
  {
    seq(|files|, k requires 0 <= k < |files| => (env.paths.join(folder, files[k].name), files[k].base64))
  }

  /** The reply's paths: each file relative to the document's directory, with `/` separators. */
  function UploadedPaths(files: seq<UploadFile>, folder: string, env: HandlerEnv): (r: seq<string>)
    ensures |r| == |files|
  {
    seq(|files|, k requires 0 <= k < |files| =>
      ReplaceChar(env.paths.relative(env.paths.dirname(env.fsPath), env.paths.join(folder, files[k].name)), '\\', '/'))
  }

  /** `open-link`: a URL matching `/^http/` as it is, anything else beside the document. */
  function OpenTarget(href: string, env: HandlerEnv): (r: string)
    ensures StartsWith(href, "http") ==> r == href
    ensures !StartsWith(href, "http") ==> r == env.paths.resolve(env.paths.resolve(env.fsPath, ".."), href)
  {
    if StartsWith(href, "http") then href else env.paths.resolve(env.paths.resolve(env.fsPath, ".."), href)
  }

  /**
   * What a message may do: the title is refreshed exactly after `save` and an active `edit`;
   * only those two change the text, only `save` the saved text, only `save-options` and
   * `reset-config` the persisted options, only `update-outline-width` the settings; the
   * theme and the panel's activity stay; and the posted messages, notices, written files and
   * opened links only grow, by at most one message.
   */
  predicate WithinEffects(v: HostView, m: ToHost, r: (HostView, bool)) {
    (r.1 <==> m.Save? || (m.Edit? && v.active))
    && (r.0.text != v.text ==> m.Save? || m.Edit?)
    && (r.0.savedText != v.savedText ==> m.Save?)
    && (r.0.globalOptions != v.globalOptions ==> m.SaveOptions? || m.ResetConfig?)
    && (r.0.settings != v.settings ==> m.UpdateOutlineWidth?)
    && r.0.theme == v.theme && r.0.active == v.active
    && v.posted <= r.0.posted && |r.0.posted| <= |v.posted| + 1
    && v.notices <= r.0.notices && v.written <= r.0.written && v.openedLinks <= r.0.openedLinks
  }

  /** What one message does, and whether the title is refreshed afterwards. */
  function Dispatch(v: HostView, m: ToHost, env: HandlerEnv): (HostView, bool) {
    match m
    case Ready => (v.(posted := v.posted + [ReadyReply(v)]), false)
    case SaveOptions(options) => (v.(globalOptions := Some(options)), false)
    case Info(content) => (v.(notices := v.notices + [InfoNotice(content)]), false)
    case Error(content) => (v.(notices := v.notices + [ShowError(content)]), false)
    case Edit(content) => if v.active then (v.(text := content), true) else (v, false)
    case ResetConfig => (v.(globalOptions := Some(map[])), false)
    case Save(content) => (v.(text := content, savedText := content), true)
    case Upload(files) =>
      var folder := AssetsFolder(v, env);
      if !env.createDirectory(folder) then
        (v.(notices := v.notices + [ShowError("Invalid image folder: " + folder)]), false)
      else
        (v.(written := v.written + UploadTargets(files, folder, env),
            posted := v.posted + [Uploaded(Some(UploadedPaths(files, folder, env)))]), false)
    case OpenLink(href) => (v.(openedLinks := v.openedLinks + [OpenTarget(href, env)]), false)
    case UpdateOutlineWidth(width) => (v.(settings := Config.UpdateOutlineWidth(v.settings, width)), false)
    case UnknownToHost(_) => (v, false)
  }

  /** The state after a sequence of messages, handled in order. */
  function DispatchAll(v: HostView, ms: seq<ToHost>, env: HandlerEnv): HostView
    decreases |ms|
  {
    if ms == [] then v else DispatchAll(Dispatch(v, ms[0], env).0, ms[1..], env)
  }

  /** Every message stays within its effects. */
  lemma DispatchEffects(v: HostView, m: ToHost, env: HandlerEnv)
    ensures WithinEffects(v, m, Dispatch(v, m, env))
  {
  }

  /**
   * Over a sequence of messages the theme and the panel's activity stay, and the posted
   * messages, notices, written files and opened links only grow, by at most one message each.
   */
  lemma {:induction false} DispatchAllGrows(v: HostView, ms: seq<ToHost>, env: HandlerEnv)
    ensures var r := DispatchAll(v, ms, env);
            r.theme == v.theme && r.active == v.active
            && v.posted <= r.posted && |r.posted| <= |v.posted| + |ms|
            && v.notices <= r.notices && v.written <= r.written && v.openedLinks <= r.openedLinks
    decreases |ms|
  {
    if ms != [] {
      var w := Dispatch(v, ms[0], env).0;
      DispatchEffects(v, ms[0], env);
      DispatchAllGrows(w, ms[1..], env);
    }
  }

  /** Handling `[m] + ms` is handling `m`, then `ms`. */
  lemma DispatchAllCons(v: HostView, m: ToHost, ms: seq<ToHost>, env: HandlerEnv)
    ensures DispatchAll(v, [m] + ms, env) == DispatchAll(Dispatch(v, m, env).0, ms, env)
  {
    assert ([m] + ms)[1..] == ms;
  }

  /** `reset-config` persists `{}` and changes nothing else. */
  lemma DispatchResetConfig(v: HostView, env: HandlerEnv)
    ensures Dispatch(v, ResetConfig, env) == (v.(globalOptions := Some(map[])), false)
  {
  }

  /** `ready` posts the reply and changes nothing else. */
  lemma DispatchReady(v: HostView, env: HandlerEnv)
    ensures Dispatch(v, Ready, env) == (v.(posted := v.posted + [ReadyReply(v)]), false)
  {
  }

  /** `info` shows the message and changes nothing else. */
  lemma DispatchInfo(v: HostView, content: string, env: HandlerEnv)
    ensures Dispatch(v, Info(content), env) == (v.(notices := v.notices + [InfoNotice(content)]), false)
  {
  }

  /** With `{}` persisted, `ready` sends the configuration's options unchanged. */
  lemma ReadyOptionsEmpty(settings: Stored)
    ensures ReadyOptions(settings, Some(map[])) == ToOptions(GetEditorConfig(settings))
  {
    var a := ToOptions(GetEditorConfig(settings));
    assert Spread(a, map[]) == a;
  }

  /**
   * `ready` posts exactly one `update` of type `init` with the document text; a persisted
   * option overrides the configuration's value of the same key, and every other key has the
   * configuration's value.
   */
  lemma ReadyReplyOptions(v: HostView, env: HandlerEnv)
    ensures var (w, refresh) := Dispatch(v, Ready, env);
            !refresh && w.posted == v.posted + [ReadyReply(v)] && w.(posted := v.posted) == v
    ensures var o := ReadyOptions(v.settings, v.globalOptions);
            var saved := v.globalOptions.GetOr(map[]);
            var config := ToOptions(GetEditorConfig(v.settings));
            o.Keys == config.Keys + saved.Keys
            && (forall k :: k in saved ==> o[k] == saved[k])
            && (forall k :: k in config && k !in saved ==> o[k] == config[k])
  {
  }

  /** `edit` replaces the text only while the panel is active; otherwise nothing changes. */
  lemma EditOnlyWhileActive(v: HostView, content: string, env: HandlerEnv)
    ensures v.active ==> Dispatch(v, Edit(content), env) == (v.(text := content), true)
    ensures !v.active ==> Dispatch(v, Edit(content), env) == (v, false)
  {
  }

  /** `save` always syncs the text and saves, so the document is clean with the message's content. */
  lemma SaveSyncsAndSaves(v: HostView, content: string, env: HandlerEnv)
    ensures var (w, refresh) := Dispatch(v, Save(content), env);
            refresh && w.text == content && w.savedText == w.text && w.(text := v.text, savedText := v.savedText) == v
  {
  }

  /**
   * After `reset-config`, the next `ready` sends the configuration alone: the persisted options
   * are `{}`, which override nothing.
   */
  lemma ResetThenReady(v: HostView, env: HandlerEnv)
    ensures var w := DispatchAll(v, [ResetConfig, Ready], env);
            w.globalOptions == Some(map[])
            && w.posted == v.posted + [Update(v.text, "init", Some(ToOptions(GetEditorConfig(v.settings))), Some(GetCurrentTheme(v.theme)))]
  {
    var w1 := v.(globalOptions := Some(map[]));
    var w2 := w1.(posted := w1.posted + [ReadyReply(w1)]);
    assert DispatchAll(v, [ResetConfig, Ready], env) == w2 by {
      DispatchResetConfig(v, env);
      DispatchReady(w1, env);
      DispatchAllCons(v, ResetConfig, [Ready], env);
      assert [ResetConfig] + [Ready] == [ResetConfig, Ready];
      DispatchAllCons(w1, Ready, [], env);
      assert [Ready] + [] == [Ready];
    }
    ReadyOptionsEmpty(v.settings);
  }

  /**
   * `save-options` stores the options as given, and the next `ready` carries each of them
   * over the configuration's value.
   */
  lemma SaveOptionsThenReady(v: HostView, options: Options, env: HandlerEnv)
    ensures var w := DispatchAll(v, [SaveOptions(options), Ready], env);
            var sent := Spread(ToOptions(GetEditorConfig(v.settings)), options);
            w.globalOptions == Some(options)
            && w.posted == v.posted + [Update(v.text, "init", Some(sent), Some(GetCurrentTheme(v.theme)))]
            && forall k :: k in options ==> k in sent && sent[k] == options[k]
  {
    var w1 := Dispatch(v, SaveOptions(options), env).0;
    assert DispatchAll(v, [SaveOptions(options), Ready], env) == DispatchAll(w1, [Ready], env);
  }

  /**
   * An upload whose folder cannot be created writes nothing and sends no reply, only an
   * error; otherwise it writes one file per entry and replies once, with one `/`-separated
   * path per file, in input order.
   */
  lemma UploadOutcome(v: HostView, files: seq<UploadFile>, env: HandlerEnv)
    ensures var w := Dispatch(v, Upload(files), env).0;
            var folder := AssetsFolder(v, env);
            (!env.createDirectory(folder) ==>
               w.written == v.written && w.posted == v.posted
               && w.notices == v.notices + [ErrorNotice("[markdown-editor] Invalid image folder: " + folder)])
            && (env.createDirectory(folder) ==>
               |w.written| == |v.written| + |files| && |w.posted| == |v.posted| + 1
               && Last(w.posted).Uploaded? && Last(w.posted).files.Some?
               && |Last(w.posted).files.value| == |files|
               && (forall k, i :: 0 <= k < |files| && 0 <= i < |Last(w.posted).files.value[k]| ==>
                     Last(w.posted).files.value[k][i] != '\\'))
  {
    var folder := AssetsFolder(v, env);
    if env.createDirectory(folder) {
      var ps := UploadedPaths(files, folder, env);
      forall k, i | 0 <= k < |files| && 0 <= i < |ps[k]| ensures ps[k][i] != '\\' {
        var raw := env.paths.relative(env.paths.dirname(env.fsPath), env.paths.join(folder, files[k].name));
        assert ps[k] == ReplaceChar(raw, '\\', '/');
      }
    } else {
      assert "[markdown-editor] " + ("Invalid image folder: " + folder) == "[markdown-editor] Invalid image folder: " + folder;
    }
  }

  /** `open-link` opens http(s) URLs as they are and resolves anything else beside the document. */
  lemma OpenLinkTarget(v: HostView, href: string, env: HandlerEnv)
    ensures var w := Dispatch(v, OpenLink(href), env).0;
            w.openedLinks == v.openedLinks + [OpenTarget(href, env)] && w.(openedLinks := v.openedLinks) == v
    ensures StartsWith(href, "http") ==> OpenTarget(href, env) == href
    ensures !StartsWith(href, "http") ==> OpenTarget(href, env) == env.paths.resolve(env.paths.resolve(env.fsPath, ".."), href)
  {
  }

  /** An unknown command changes nothing; only `edit` while active and `save` refresh the title. */
  lemma UnknownAndTitle(v: HostView, m: ToHost, env: HandlerEnv)
    ensures m.UnknownToHost? ==> Dispatch(v, m, env) == (v, false)
    ensures Dispatch(v, m, env).1 <==> (m.Edit? && v.active) || m.Save?
    ensures Dispatch(v, m, env).0.text != v.text ==> m.Edit? || m.Save?
  {
  }

  /**
   * The dispatcher of one panel, bound to that panel's document, the webview panel and the
   * host. The constructor stands for `new MessageHandler(...)`.
   */
  class MessageHandler {
    const host: Host
    const panel: WebviewPanel
    const document: TextDocument
    const env: HandlerEnv

    /** The state `Dispatch` speaks about. */
    function View(): HostView
      reads host, panel, document
    {
      HostView(document.text, document.savedText, panel.active, host.settings, host.globalOptions, host.theme,
               panel.posted, host.notices, host.openedLinks, host.written)
    }

    constructor (host: Host, panel: WebviewPanel, document: TextDocument, env: HandlerEnv)
      ensures this.host == host && this.panel == panel && this.document == document && this.env == env
    {
      this.host := host;
      this.panel := panel;
      this.document := document;
      this.env := env;
    }

    /** `handleMessage`: handles one message as `Dispatch` says; the result asks for a title refresh. */
    method HandleMessage(m: ToHost) returns (refreshTitle: bool)
      modifies host, panel, document
      ensures (View(), refreshTitle) == Dispatch(old(View()), m, env)
      ensures panel.html == old(panel.html) && panel.title == old(panel.title)
      ensures panel.revealCount == old(panel.revealCount) && panel.disposed == old(panel.disposed)
    {
      refreshTitle := false;
      match m
      case Ready =>
        PostReadyReply();
      case SaveOptions(options) =>
        host.globalOptions := Some(options);
      case Info(content) =>
        host.notices := host.notices + [InfoNotice(content)];
      case Error(content) =>
        host.notices := host.notices + [ShowError(content)];
      case Edit(content) =>
        if panel.active {
          SyncToEditor(content);
          refreshTitle := true;
        }
      case ResetConfig =>
        host.globalOptions := Some(map[]);
      case Save(content) =>
        SyncToEditor(content);
        document.savedText := document.text;
        refreshTitle := true;
      case Upload(files) =>
        HandleUpload(files);
      case OpenLink(href) =>
        OpenExternal(href);
      case UpdateOutlineWidth(width) =>
        host.settings := Config.UpdateOutlineWidth(host.settings, width);
      case UnknownToHost(_) =>
    }

    /** The `ready` branch: the reply with the document text and the options is posted. */
    method PostReadyReply()
      modifies panel
      ensures View() == Dispatch(old(View()), Ready, env).0
      ensures panel.html == old(panel.html) && panel.title == old(panel.title)
      ensures panel.revealCount == old(panel.revealCount) && panel.disposed == old(panel.disposed)
    {
      panel.posted := panel.posted + [ReadyReply(View())];
    }

    /** The `open-link` branch: an http URL as it is, anything else resolved beside the document. */
    method OpenExternal(href: string)
      modifies host
      ensures View() == Dispatch(old(View()), OpenLink(href), env).0
    {
      var url := href;
      if !StartsWith(url, "http") {
        url := env.paths.resolve(env.paths.resolve(env.fsPath, ".."), url);
      }
      host.openedLinks := host.openedLinks + [url];
    }

    /** `syncToEditor`: one edit replacing the whole range, so the text becomes `content`. */
    method SyncToEditor(content: string)
      modifies document
      ensures document.text == content && document.savedText == old(document.savedText)
    {
      document.text := content;
    }

    /**
     * `handleUpload`: create the folder (on failure: an error and nothing else), write every
     * file, then post one `uploaded` reply.
     */
    method HandleUpload(files: seq<UploadFile>)
      modifies host, panel
      ensures View() == Dispatch(old(View()), Upload(files), env).0
      ensures panel.html == old(panel.html) && panel.title == old(panel.title)
      ensures panel.revealCount == old(panel.revealCount) && panel.disposed == old(panel.disposed)
    {
      var folder := AssetsFolder(View(), env);
      if !env.createDirectory(folder) {
        host.notices := host.notices + [ShowError("Invalid image folder: " + folder)];
        return;
      }
      for i := 0 to |files|
        invariant host.written == old(host.written) + UploadTargets(files[..i], folder, env)
        invariant host.settings == old(host.settings) && host.globalOptions == old(host.globalOptions)
        invariant host.theme == old(host.theme) && host.notices == old(host.notices) && host.openedLinks == old(host.openedLinks)
        invariant panel.posted == old(panel.posted) && panel.active == old(panel.active)
        invariant panel.html == old(panel.html) && panel.title == old(panel.title)
        invariant panel.revealCount == old(panel.revealCount) && panel.disposed == old(panel.disposed)
      {
        assert UploadTargets(files[..i + 1], folder, env)
          == UploadTargets(files[..i], folder, env) + [(env.paths.join(folder, files[i].name), files[i].base64)];
        host.written := host.written + [(env.paths.join(folder, files[i].name), files[i].base64)];
      }
      assert files[..|files|] == files;
      panel.posted := panel.posted + [Uploaded(Some(UploadedPaths(files, folder, env)))];
    }
  }
}
