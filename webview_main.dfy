/**
 * The webview's side of the protocol: `ready` at start-up, the dispatcher of messages from
 * the host (editor creation on `update` of type `init`, content replacement on any other
 * `update`, insertion of uploaded files, toolbar visibility on `config-update`), and the
 * messages the toolbar's save and reset buttons and the upload handler send.
 *
 * The editor widget is a value: its content, the toolbar `hide` option, whether the toolbar
 * element carries the hidden class, and the markup inserted into it. Whether building an
 * editor throws, and whether a URL loads as an image, are parameters (`WebviewEnv`).
 */
module WebviewMain {
  import opened Wrappers
  import opened Text
  import opened Protocol
  import opened Upload
  import opened Toolbar
  import Config
  import HostUtils
  import MessageHandler
  import Workbench

  /** The editor as the dispatcher sees it. */
  datatype Editor = Editor(content: string, hide: bool, toolbarHidden: bool, inserted: seq<string>)

  datatype WebviewEnv = WebviewEnv(
    /** Whether `initVditor` throws for these options before it touches the current editor. */
    initThrows: Option<Options> -> bool,
    /** Whether the full editor construction succeeds; otherwise the plain fallback editor is built. */
    constructs: Option<Options> -> bool,
    /** Whether a URL loads as an image (`onload` rather than `onerror`). */
    loadsAsImage: string -> bool)

  /** `options?.showToolbar === false`. */
  predicate HidesToolbar(options: Option<Options>) {
    options.Some? && "showToolbar" in options.value && options.value["showToolbar"] == Bool(false)
  }

  /**
   * `initVditor`: a new editor holding the content; the full construction hides the toolbar
   * exactly when the options say `showToolbar: false`, the fallback never does.
   */
  function InitEditor(content: string, options: Option<Options>, env: WebviewEnv): (e: Editor)
    ensures e.content == content && e.inserted == []
    ensures e.hide == e.toolbarHidden
    ensures e.hide <==> env.constructs(options) && HidesToolbar(options)
  {
    if env.constructs(options) then Editor(content, HidesToolbar(options), HidesToolbar(options), [])
    else Editor(content, false, false, [])
  }

  /** `update` of type `init`: initialise, and on an exception retry with the same content and `{}`. */
  function Init(editor: Option<Editor>, content: string, options: Option<Options>, env: WebviewEnv): (r: Option<Editor>)
    ensures !env.initThrows(options) || !env.initThrows(Some(map[])) ==>
              r.Some? && r.value.content == content && r.value.inserted == [] && r.value.hide == r.value.toolbarHidden
    ensures env.initThrows(options) ==> r.Some? ==> !r.value.hide || r == editor
    ensures env.initThrows(options) && env.initThrows(Some(map[])) ==> r == editor
  {
    if !env.initThrows(options) then Some(InitEditor(content, options, env))
    else if !env.initThrows(Some(map[])) then Some(InitEditor(content, Some(map[]), env))
    else editor
  }

  /** The editor after `handleUploadedFiles` inserted the markup of every URL, in order. */
  function Inserted(e: Editor, urls: seq<string>, env: WebviewEnv): (r: Editor)
    ensures r.content == e.content && r.hide == e.hide && r.toolbarHidden == e.toolbarHidden
    ensures e.inserted <= r.inserted && |r.inserted| == |e.inserted| + |urls|
  {
    e.(inserted := e.inserted + Markups(urls, env.loadsAsImage))
  }

  /** The markups of two batches are the markups of their concatenation. */
  lemma {:induction false} MarkupsAppend(us: seq<string>, vs: seq<string>, loadsAsImage: string -> bool)
    ensures Markups(us + vs, loadsAsImage) == Markups(us, loadsAsImage) + Markups(vs, loadsAsImage)
    decreases |us|
  {
    if us == [] {
      assert us + vs == vs;
    } else {
      assert (us + vs)[1..] == us[1..] + vs;
      MarkupsAppend(us[1..], vs, loadsAsImage);
    }
  }

  /** Inserting the first `i + 1` URLs appends the markup of URL `i` to the first `i`. */
  lemma InsertedNext(e: Editor, urls: seq<string>, i: nat, env: WebviewEnv)
    requires i < |urls|
    ensures Inserted(e, urls[..i + 1], env)
            == Inserted(e, urls[..i], env).(inserted := Inserted(e, urls[..i], env).inserted + [Markup(urls[i], env.loadsAsImage(urls[i]))])
  {
    assert urls[..i + 1] == urls[..i] + [urls[i]];
    MarkupsAppend(urls[..i], [urls[i]], env.loadsAsImage);
    assert Markups([urls[i]], env.loadsAsImage) == [Markup(urls[i], env.loadsAsImage(urls[i]))];
    assert e.inserted + Markups(urls[..i + 1], env.loadsAsImage)
           == (e.inserted + Markups(urls[..i], env.loadsAsImage)) + [Markup(urls[i], env.loadsAsImage(urls[i]))];
  }

  /** Inserting no URL leaves the editor as it is. */
  lemma InsertedNone(e: Editor, env: WebviewEnv)
    ensures Inserted(e, [], env) == e
  {
    assert Markups([], env.loadsAsImage) == [];
    assert e.inserted + [] == e.inserted;
  }

  /** What one message from the host does to the editor. */
  function Step(editor: Option<Editor>, m: ToWebview, env: WebviewEnv): (r: Option<Editor>)
    ensures !(m.Update? && m.kind == "init") ==> (r.Some? <==> editor.Some?)
    ensures m.Update? && m.kind != "init" && r.Some? ==> r.value.content == m.content
    ensures (m.Uploaded? || m.ConfigUpdate?) && r.Some? ==> r.value.content == editor.value.content
    ensures !(m.Update? || m.Uploaded? || m.ConfigUpdate?) ==> r == editor
  {
    match m
    case Update(content, kind, options, _) =>
      if kind == "init" then Init(editor, content, options, env)
      else if editor.Some? then Some(editor.value.(content := content))
      else None
    case Uploaded(files) =>
      if files.Some? && editor.Some? then Some(Inserted(editor.value, files.value, env)) else editor
    case ConfigUpdate(config) =>
      if config.Some? && editor.Some? && "showToolbar" in config.value then
        var hidden := !Truthy(config.value["showToolbar"]);
        Some(editor.value.(hide := hidden, toolbarHidden := hidden))
      else editor
    case _ => editor
  }

  /**
   * `init` builds an editor with the message's content, whatever came before; options that
   * make it throw are replaced by `{}`, which never hides the toolbar. Only when that throws
   * too does the editor stay as it was.
   */
  lemma InitBuildsEditor(editor: Option<Editor>, content: string, options: Option<Options>, theme: Option<string>, env: WebviewEnv)
    ensures var r := Step(editor, Update(content, "init", options, theme), env);
            (!env.initThrows(options) ==>
               r.Some? && r.value.content == content && r.value.inserted == []
               && (r.value.hide <==> env.constructs(options) && HidesToolbar(options)))
            && (env.initThrows(options) && !env.initThrows(Some(map[])) ==>
                  r.Some? && r.value.content == content && !r.value.hide && !r.value.toolbarHidden)
            && (env.initThrows(options) && env.initThrows(Some(map[])) ==> r == editor)
  {
    assert !HidesToolbar(Some(map[]));
  }

  /** Any other `update` only replaces the content of an existing editor, and is ignored before `init`. */
  lemma UpdateNeedsEditor(editor: Option<Editor>, content: string, kind: string, options: Option<Options>, theme: Option<string>, env: WebviewEnv)
    requires kind != "init"
    ensures editor.None? ==> Step(editor, Update(content, kind, options, theme), env).None?
    ensures editor.Some? ==> Step(editor, Update(content, kind, options, theme), env) == Some(editor.value.(content := content))
  {
  }

  /**
   * `config-update` with `showToolbar` sets `hide` to its negation and the hidden class
   * exactly when it is falsy (for a boolean: when it is `false`); without a config, without
   * an editor or without that key nothing changes.
   */
  lemma ToolbarVisibility(editor: Option<Editor>, config: Option<Options>, env: WebviewEnv)
    ensures var r := Step(editor, ConfigUpdate(config), env);
            (config.None? || editor.None? || "showToolbar" !in config.value ==> r == editor)
            && (config.Some? && editor.Some? && "showToolbar" in config.value ==>
                  r.Some? && r.value.content == editor.value.content && r.value.inserted == editor.value.inserted
                  && (r.value.toolbarHidden <==> !Truthy(config.value["showToolbar"]))
                  && r.value.hide == r.value.toolbarHidden)
    ensures config.Some? && editor.Some? && "showToolbar" in config.value && config.value["showToolbar"].Bool? ==>
              (Step(editor, ConfigUpdate(config), env).value.toolbarHidden <==> !config.value["showToolbar"].b)
  {
  }

  /**
   * `uploaded` is used only when it carries a file list and an editor exists; then one markup
   * per URL is inserted, in order, audio for `.wav`.
   */
  lemma UploadedInsertsInOrder(editor: Option<Editor>, files: Option<seq<string>>, env: WebviewEnv)
    ensures files.None? || editor.None? ==> Step(editor, Uploaded(files), env) == editor
    ensures files.Some? && editor.Some? ==>
              var r := Step(editor, Uploaded(files), env).value;
              |r.inserted| == |editor.value.inserted| + |files.value|
              && r.inserted[..|editor.value.inserted|] == editor.value.inserted
              && r.content == editor.value.content
              && forall k :: 0 <= k < |files.value| ==>
                   r.inserted[|editor.value.inserted| + k] == Markup(files.value[k], env.loadsAsImage(files.value[k]))
                   && (EndsWith(files.value[k], ".wav") ==> r.inserted[|editor.value.inserted| + k] == AudioMarkup(files.value[k]))
  {
    if files.Some? && editor.Some? {
      var r := Step(editor, Uploaded(files), env).value;
      var ms := Markups(files.value, env.loadsAsImage);
      assert r.inserted == editor.value.inserted + ms;
      assert r.inserted[..|editor.value.inserted|] == editor.value.inserted;
    }
  }

  /** The webview has no branch for the stylesheet and find-dialog messages: they change nothing. */
  lemma OtherMessagesIgnored(editor: Option<Editor>, m: ToWebview, env: WebviewEnv)
    requires m.ReloadAllCss? || m.OpenFindDialog? || m.UpdateCss? || m.CssFileDeleted? || m.UnknownToWebview?
    ensures Step(editor, m, env) == editor
  {
  }

  /** The toolbar's `hide` option and its hidden class agree in every state the dispatcher reaches. */
  predicate ToolbarAgrees(editor: Option<Editor>) {
    editor.None? || editor.value.hide == editor.value.toolbarHidden
  }

  /** Every message keeps the toolbar option and the toolbar class in agreement. */
  lemma {:induction false} StepsKeepToolbarAgreement(editor: Option<Editor>, ms: seq<ToWebview>, env: WebviewEnv)
    requires ToolbarAgrees(editor)
    ensures ToolbarAgrees(Steps(editor, ms, env))
    decreases |ms|
  {
    if ms != [] {
      var next := Step(editor, ms[0], env);
      assert ToolbarAgrees(next) by {
        match ms[0]
        case Update(content, kind, options, _) =>
          if kind == "init" && !env.initThrows(options) {
            assert next == Some(InitEditor(content, options, env));
          }
        case _ =>
      }
      StepsKeepToolbarAgreement(next, ms[1..], env);
    }
  }

  /** The editor after a sequence of messages, handled in order. */
  function Steps(editor: Option<Editor>, ms: seq<ToWebview>, env: WebviewEnv): Option<Editor>
    decreases |ms|
  {
    if ms == [] then editor else Steps(Step(editor, ms[0], env), ms[1..], env)
  }

  /**
   * The start-up handshake: the webview's `ready` makes the host post `init` with the
   * document's text, and the webview then holds an editor with that text. With no persisted
   * options and a successful construction, the toolbar is hidden exactly when the
   * `showToolbar` setting is stored as `false`.
   */
  lemma ReadyHandshake(v: MessageHandler.HostView, henv: MessageHandler.HandlerEnv, env: WebviewEnv)
    ensures var w := MessageHandler.Dispatch(v, Ready, henv).0;
            var reply := Last(w.posted);
            reply.Update? && reply.kind == "init"
            && (var e := Step(None, reply, env);
                (!env.initThrows(reply.options) || !env.initThrows(Some(map[]))) ==> e.Some? && e.value.content == v.text)
            && ((v.globalOptions.None? || v.globalOptions == Some(map[]))
                && !env.initThrows(reply.options) && env.constructs(reply.options) ==>
                  (Step(None, reply, env).value.toolbarHidden <==> v.settings.showToolbar == Some(false)))
  {
    if v.globalOptions.None? || v.globalOptions == Some(map[]) {
      var o := MessageHandler.ReadyOptions(v.settings, v.globalOptions);
      assert o == Config.ToOptions(Config.GetEditorConfig(v.settings));
      assert HidesToolbar(Some(o)) <==> !Config.GetEditorConfig(v.settings).showToolbar;
    }
  }

  /**
   * The reset button, confirmed, as the host handles its messages: the persisted options
   * become `{}`, the host posts one `init` carrying the configuration alone, and the user is
   * told the reset succeeded.
   */
  lemma ResetButtonEffect(v: MessageHandler.HostView, henv: MessageHandler.HandlerEnv)
    ensures var w := MessageHandler.DispatchAll(v, ResetEditorConfigMessages(true), henv);
            w.globalOptions == Some(map[])
            && w.posted == v.posted + [Update(v.text, "init", Some(Config.ToOptions(Config.GetEditorConfig(v.settings))),
                                              Some(HostUtils.GetCurrentTheme(v.theme)))]
            && w.notices == v.notices + [Workbench.InfoNotice("Reset config successfully!")]
            && w.text == v.text && w.savedText == v.savedText
    ensures MessageHandler.DispatchAll(v, ResetEditorConfigMessages(false), henv) == v
  {
    var info := Info("Reset config successfully!");
    var w1 := v.(globalOptions := Some(map[]));
    var w2 := w1.(posted := w1.posted + [MessageHandler.ReadyReply(w1)]);
    var w3 := w2.(notices := w2.notices + [Workbench.InfoNotice("Reset config successfully!")]);
    assert MessageHandler.DispatchAll(w2, [info], henv) == w3 by {
      MessageHandler.DispatchInfo(w2, "Reset config successfully!", henv);
      MessageHandler.DispatchAllCons(w2, info, [], henv);
      assert [info] + [] == [info];
    }
    assert MessageHandler.DispatchAll(w1, [Ready, info], henv) == w3 by {
      MessageHandler.DispatchReady(w1, henv);
      MessageHandler.DispatchAllCons(w1, Ready, [info], henv);
      assert [Ready] + [info] == [Ready, info];
    }
    assert MessageHandler.DispatchAll(v, [ResetConfig, Ready, info], henv) == w3 by {
      MessageHandler.DispatchResetConfig(v, henv);
      MessageHandler.DispatchAllCons(v, ResetConfig, [Ready, info], henv);
      assert [ResetConfig] + [Ready, info] == [ResetConfig, Ready, info];
    }
    MessageHandler.ReadyOptionsEmpty(v.settings);
  }

  /** The webview page: its editor and the messages it sent to the host. */
  class WebviewApp {
    var editor: Option<Editor>
    var sent: seq<ToHost>
    const env: WebviewEnv

    /** `initializeApp`: no editor yet, and exactly one `ready` sent. */
    constructor (env: WebviewEnv)
      ensures editor == None && sent == [Ready] && this.env == env
    {
      this.env := env;
      editor := None;
      sent := [Ready];
    }

    /** The `message` listener: handles one message from the host as `Step` says. */
    method Receive(m: ToWebview)
      modifies this
      ensures editor == Step(old(editor), m, env)
      ensures sent == old(sent)
    {
      match m
      case Update(content, kind, options, _) =>
        if kind == "init" {
          if !env.initThrows(options) {
            editor := Some(InitEditor(content, options, env));
          } else if !env.initThrows(Some(map[])) {
            editor := Some(InitEditor(content, Some(map[]), env));
          }
        } else if editor.Some? {
          editor := Some(editor.value.(content := content));
        }
      case Uploaded(files) =>
        if files.Some? {
          HandleUploadedFiles(files.value);
        }
      case ConfigUpdate(config) =>
        if config.Some? && editor.Some? && "showToolbar" in config.value {
          var hidden := !Truthy(config.value["showToolbar"]);
          editor := Some(editor.value.(hide := hidden, toolbarHidden := hidden));
        }
      case _ =>
    }

    /** `handleUploadedFiles`: nothing without an editor; otherwise one insertion per URL, in order. */
    method HandleUploadedFiles(files: seq<string>)
      modifies this
      ensures old(editor).None? ==> editor == old(editor)
      ensures old(editor).Some? ==> editor == Some(Inserted(old(editor).value, files, env))
      ensures sent == old(sent)
    {
      if editor.Some? {
        var e0 := editor.value;
        InsertedNone(e0, env);
        assert files[..0] == [];
        for i := 0 to |files|
          invariant editor == Some(Inserted(e0, files[..i], env))
          invariant sent == old(sent)
        {
          InsertedNext(e0, files, i, env);
          InsertValue(Markup(files[i], env.loadsAsImage(files[i])));
        }
        assert files[..|files|] == files;
      }
    }

    /** `vditor.insertValue`: the markup goes into the editor. */
    method InsertValue(markup: string)
      requires editor.Some?
      modifies this
      ensures editor == Some(old(editor).value.(inserted := old(editor).value.inserted + [markup]))
      ensures sent == old(sent)
    {
      editor := Some(editor.value.(inserted := editor.value.inserted + [markup]));
    }

    /** The save button: one `save` with the editor's content; there is no button without an editor. */
    method ClickSave()
      modifies this
      ensures old(editor).Some? ==> sent == old(sent) + SaveDocumentMessages(old(editor).value.content)
      ensures old(editor).None? ==> sent == old(sent)
      ensures editor == old(editor)
    {
      if editor.Some? {
        sent := sent + SaveDocumentMessages(editor.value.content);
      }
    }

    /** The reset button: the confirmation's answer decides whether the three messages go. */
    method ClickReset(confirmed: bool)
      modifies this
      ensures sent == old(sent) + ResetEditorConfigMessages(confirmed)
      ensures editor == old(editor)
    {
      sent := sent + ResetEditorConfigMessages(confirmed);
    }

    /** The editor's upload handler: one `upload` per batch, or nothing when an encoding fails. */
    method UploadFiles(files: seq<PickedFile>, stamps: seq<string>, toBase64: PickedFile -> Option<string>)
      requires |stamps| == |files|
      modifies this
      ensures UploadMessage(files, stamps, toBase64).Some? ==> sent == old(sent) + [UploadMessage(files, stamps, toBase64).value]
      ensures UploadMessage(files, stamps, toBase64).None? ==> sent == old(sent)
      ensures editor == old(editor)
    {
      var m := UploadMessage(files, stamps, toBase64);
      if m.Some? {
        sent := sent + [m.value];
      }
    }
  }
}
