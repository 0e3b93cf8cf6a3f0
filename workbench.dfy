/**
 * The host editor's objects that the extension reads and changes: the markdown text
 * document, the webview panel of the visual editor, and the extension-wide state (settings,
 * the persisted editor options, the colour theme, and what the user was shown or had opened).
 */
module Workbench {
  import opened Wrappers
  import opened Protocol
  import opened HostUtils
  import opened Config
  import opened HtmlGenerator

  /** A `vscode.Uri`: `id` tells two URI objects apart, as `!==` does. */
  datatype Uri = Uri(id: nat, fsPath: string)

  /** A message box shown to the user. */
  datatype Notice = InfoNotice(text: string) | ErrorNotice(text: string)

  /** `showError`: every error message carries the extension's prefix. */
  function ShowError(message: string): (n: Notice)
    ensures n.ErrorNotice? && |n.text| == 18 + |message|
    ensures n.text[..18] == "[markdown-editor] " && n.text[18..] == message
  {
    ErrorNotice("[markdown-editor] " + message)
  }

  /** A text document: its current text and the text last saved to disk. */
  class TextDocument {
    const uri: Uri
    const languageId: string
    var text: string
    var savedText: string

    /** `isDirty`: the text differs from what was last saved. */
    predicate IsDirty()
      reads this
    {
      text != savedText
    }

    constructor (uri: Uri, languageId: string, text: string)
      ensures this.uri == uri && this.languageId == languageId
      ensures this.text == text && savedText == text && !IsDirty()
    {
      this.uri := uri;
      this.languageId := languageId;
      this.text := text;
      this.savedText := text;
    }
  }

  /** A webview panel: its page, its title, and the messages posted to its webview. */
  class WebviewPanel {
    /** The page set as the webview's HTML, as its parts (its text is `Render` of them); none yet at creation. */
    var html: Option<Page>
    var title: string
    /** Whether the panel has the focus. */
    var active: bool
    var revealCount: nat
    var disposed: bool
    var posted: seq<ToWebview>

    constructor ()
      ensures html == None && title == "markdown-editor" && !active && revealCount == 0 && !disposed && posted == []
    {
      html := None;
      title := "markdown-editor";
      active := false;
      revealCount := 0;
      disposed := false;
      posted := [];
    }

    /** The user focuses or leaves the panel. */
    method SetActive(active: bool)
      modifies this
      ensures this.active == active
      ensures html == old(html) && title == old(title) && revealCount == old(revealCount)
      ensures disposed == old(disposed) && posted == old(posted)
    {
      this.active := active;
    }
  }

  /** The extension's view of the rest of the host. */
  class Host {
    /** The `markdown-editor` settings. */
    var settings: Stored
    /** The `vditor.options` entry of the global state. */
    var globalOptions: Option<Options>
    var theme: ColorThemeKind
    var notices: seq<Notice>
    /** What `vscode.open` was asked to open, in order. */
    var openedLinks: seq<string>
    /** The files written, as path and base64 content, in order. */
    var written: seq<(string, string)>

    constructor (settings: Stored, globalOptions: Option<Options>, theme: ColorThemeKind)
      ensures this.settings == settings && this.globalOptions == globalOptions && this.theme == theme
      ensures notices == [] && openedLinks == [] && written == []
    {
      this.settings := settings;
      this.globalOptions := globalOptions;
      this.theme := theme;
      notices := [];
      openedLinks := [];
      written := [];
    }

    /** The user or another extension changes the settings. */
    method SetSettings(settings: Stored)
      modifies this
      ensures this.settings == settings && globalOptions == old(globalOptions) && theme == old(theme)
      ensures notices == old(notices) && openedLinks == old(openedLinks) && written == old(written)
    {
      this.settings := settings;
    }
  }
}
