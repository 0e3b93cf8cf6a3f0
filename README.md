# A verified model of the markdown editor extension

The extension opens a markdown file in a WYSIWYG editor (`vditor`) shown in a VS Code
webview panel. Two halves talk through messages:

- the **host side** (`src/`): the settings reader (`ConfigManager`), the small utilities
  (http(s) test, the image-folder placeholders, the webview options, the theme), the page
  generator for the webview, the panel that keeps the document and the webview in step
  (`EditorPanel`), and the dispatcher for messages from the webview (`MessageHandler`);
- the **webview side** (`media-src/`): the message loop (`main.ts`), the stylesheet manager
  of the page head (`CssHandler`), find and replace (`FindReplaceHandler`) with its
  highlight overlay (`HighlightOverlay`), image resizing, the resizable outline, the toolbar
  layout, the translations and the upload of pasted files.

The Dafny modules follow those files one by one:

| module | file | flavour |
|---|---|---|
| `Config` | `config.dfy` | pure: settings with defaults, the change-group tests |
| `HostUtils` | `host_utils.dfy` | pure: `isHttpUrl`, `getAssetsFolder`, `getWebviewOptions`, `getCurrentTheme` |
| `HtmlGenerator` | `html_generator.dfy` | pure: the page and its stylesheet content |
| `Workbench` | `workbench.dfy` | classes for the host objects: document, panel, host state |
| `MessageHandler` | `message_handler.dfy` | a `Dispatch` function and a class that performs it |
| `EditorPanel` | `editor_panel.dfy` | a class: panel registry, sync of document and webview, CSS updates |
| `WebviewMain` | `webview_main.dfy` | the webview's message loop as a state machine |
| `CssHandler` | `css_handler.dfy` | a class over the list of head nodes |
| `FindReplace` | `find_replace.dfy` | a class: the search state, the query, the document text |
| `HighlightOverlay` | `highlight_overlay.dfy` | a class: the overlay's boxes, computed from text nodes |
| `ImageResize` | `image_resize.dfy` | a class: handles, drag state, the image's size |
| `OutlineResize` | `outline_resize.dfy` | a class: the drag of the outline's width |
| `Toolbar` | `toolbar.dfy` | pure: the toolbar layout |
| `Lang` | `lang.dfy` | pure: the language tables and `t` |
| `Upload` | `upload.dfy` | pure: the stored file names, the `upload` message, the inserted markup |

Shared modules: `Wrappers` (`Option`), `Text` (the string built-ins the code uses:
`indexOf`, `startsWith`, `split`, `replace` with its replacement template, decimal
notation), `Protocol` (the messages between the halves and the option objects),
`RegexLiteral` and `LiteralMatch` (the regular expressions find and replace builds from a
query, and their matching, `exec`/`lastIndex` scanning and global replacement).

What the model takes as given is passed in as parameters: what Node's `path` module
computes, whether a file exists, what `asWebviewUri` returns, the geometry the browser
reports (rectangles, sizes), and for a regular expression outside the literal fragment
described below, which match the browser's engine finds.

The literal fragment of the pattern language is what a query outside regex mode turns into:
plain characters, a backslash before one of the fourteen metacharacters, and `\b`. Such a
pattern is matched exactly: `\b` over the word characters `[A-Za-z0-9_]` and the `i` flag as
ASCII case folding. Any other pattern goes to the engine, which is a parameter: compiling
gives `None` exactly when `new RegExp` throws, and a compiled pattern gives the length of its
match at a position of a text, if it matches there. On top of that the model defines what the
source does with it: `exec` with `lastIndex`, the scan loops, and `String.prototype.replace`
with a global expression and its `$` template.

Where the documentation of the extension and the code disagree, the model follows the code:

- `showHighlights` checks for the container before it records its arguments
  (media-src/src/features/findReplace/highlightOverlay.ts:40-46), so a destroyed overlay
  returns 0 and records nothing;
- the webview's message loop (media-src/src/main.ts:25-99) has no branch for
  `open-find-dialog`, `update-css`, `reload-all-css` or `css-file-deleted`, so those
  messages fall through to the default branch and change nothing;
- `cleanupImageResize` (media-src/src/features/image/imageResize.ts:655-667) removes the
  per-image flag but not the per-image listeners, so a later setup binds a second set.

## Model

| member | source | states |
|---|---|---|
| Config.GetEditorConfig | src/config/index.ts:23-37 | each setting read with `\|\|` takes its default when absent or falsy (an empty list is not falsy); `showToolbar` is false only when `false` is stored |
| Config.UnsetDefaults | src/config/index.ts:23-37 | with nothing stored the configuration is `[]`, `""`, `external-first`, `assets`, false, false, `left`, 300, false, true |
| Config.GetEditorConfigIdempotent | src/config/index.ts:23-37 | storing the read configuration and reading again gives the same configuration |
| Config.UpdateOutlineWidth | src/config/index.ts:39-42 | only the outline width setting changes; a non-zero width is what the next read yields, zero reads as 300 |
| Config.ToOptions | src/webview/messageHandler.ts:58-61 | the configuration spread into an option object has exactly the ten configuration keys with their values |
| Config.ChangeGroups | src/config/index.ts:44-59 | each change test holds exactly when the event affects a key of its group |
| Config.SingleSettingChange | src/config/index.ts:4-16 | a change of one key triggers exactly its own group, and the three groups share no key |
| Protocol.Spread | src/webview/messageHandler.ts:58-61 | `{...a, ...b}` has the keys of both, `b`'s value where both have one and `a`'s elsewhere |
| HostUtils.IsHttpUrlIff | src/utils/index.ts:16-18 | a URL passes the test exactly when it starts with `http://` or `https://` in any letter case |
| HostUtils.SubstituteEachPlain | src/utils/index.ts:20-31 | a folder setting without placeholders passes through the four replacements unchanged |
| HostUtils.PlainFolderUnchanged | src/utils/index.ts:20-34 | a folder setting without placeholders is resolved against the document's directory as written |
| HostUtils.SubstituteFirstStep | src/utils/index.ts:21-26 | each step swaps only the first occurrence of its placeholder |
| HostUtils.ProjectRootFirstOnly | src/utils/index.ts:21-25 | `${projectRoot}` becomes the workspace folder's path, or `""` without a workspace folder, at its first occurrence only |
| HostUtils.GetWebviewOptions | src/utils/index.ts:36-48 | scripts and command URIs on, context kept when hidden, resource roots `/` and then the 26 drive roots `A:/` to `Z:/` in order |
| HostUtils.GetCurrentTheme | src/utils/index.ts:50-52 | `dark` exactly for a dark colour theme kind, `light` for every other kind |
| Workbench.ShowError | src/utils/index.ts:8-10 | an error notice whose text is `[markdown-editor] ` followed by the message |
| HtmlGenerator.ResolveRelative | src/webview/htmlGenerator.ts:73-88 | a relative stylesheet resolves beside the document when that file exists, else in the workspace folder, else beside the document |
| HtmlGenerator.ExternalEntry | src/webview/htmlGenerator.ts:56-69 | an http(s) URL is linked as written with `crossorigin`, an absolute path through its webview URI or a failure comment, anything else as a relative path |
| HtmlGenerator.Entries | src/webview/htmlGenerator.ts:55-71 | one entry per configured file, in configured order |
| HtmlGenerator.ExternalCssLinksOnePerFile | src/webview/htmlGenerator.ts:55-71 | when no entry holds a newline, the joined list splits back into exactly the entries, one per file |
| HtmlGenerator.CssContent | src/webview/htmlGenerator.ts:98-106 | empty custom CSS adds no `<style>`; under `external-first` links then style, under any other order style then links, separated by one newline |
| HtmlGenerator.CssContentOrder | src/webview/htmlGenerator.ts:98-106 | the links are a prefix under `external-first` and a suffix otherwise; the style occurs exactly when the custom CSS is non-empty; the length adds up |
| HtmlGenerator.MapLinks | src/webview/htmlGenerator.ts:27 | one `<link>` tag per built-in stylesheet, in order |
| HtmlGenerator.MapScripts | src/webview/htmlGenerator.ts:33 | one `<script>` tag per script file, in order |
| HtmlGenerator.PageOf | src/webview/htmlGenerator.ts:14-36 | the page's stylesheet content is the generated CSS content of the configuration; the other parts are passed through |
| HtmlGenerator.HeadOrder | src/webview/htmlGenerator.ts:21-30 | in the page head the built-in stylesheet links come first, right after the `<base>` tag, and the external and custom CSS right after them |
| Lang.CurrentLanguage | media-src/src/i18n/lang.ts:67-73 | the tag with its first `-` made `_` when a table of that name exists, else `en_US`; always a table name |
| Lang.T | media-src/src/i18n/lang.ts:83-85 | the language's non-empty string, else the English one, else the key itself |
| Lang.Lookup | media-src/src/i18n/lang.ts:84 | a non-empty lookup is the table's own entry for the key; a missing key reads as the empty string |
| Lang.Translate | media-src/src/i18n/lang.ts:77-85 | a translation is empty only for the empty key, which falls through to itself |
| Lang.FirstDashOnly | media-src/src/i18n/lang.ts:68 | `replace('-', '_')` changes only the first dash |
| Lang.TagSelection | media-src/src/i18n/lang.ts:67-73 | a tag `a-b` selects table `a_b` when it exists and English otherwise |
| Lang.ChineseTag | media-src/src/i18n/lang.ts:57-73 | the tag `zh-CN` selects the Chinese table |
| Lang.UnknownKeyIsItself | media-src/src/i18n/lang.ts:83-85 | a key that no table defines translates to itself under every tag |
| Lang.EnglishFallback | media-src/src/i18n/lang.ts:34-85 | every English key translates to a non-empty string of the chosen table or of English; under Japanese every key but `save` falls back to English |
| Lang.EnglishNonEmpty | media-src/src/i18n/lang.ts:35-50 | every English string is non-empty |
| Lang.UpdateHotkeyTip | media-src/src/i18n/lang.ts:92-94 | the tip is returned unchanged |
| MessageHandler.UploadTargets | src/webview/messageHandler.ts:105-113 | one written file per uploaded file |
| MessageHandler.UploadedPaths | src/webview/messageHandler.ts:115-120 | one reply path per uploaded file |
| MessageHandler.ReadyOptionsEmpty | src/webview/messageHandler.ts:55-61 | with `{}` persisted, the options sent on `ready` are the configuration's own |
| MessageHandler.ReadyOptions | src/webview/messageHandler.ts:56-61 | every configuration key is an option; a persisted option overrides, and every other configuration key keeps the configuration's value |
| MessageHandler.ReadyReply | src/webview/messageHandler.ts:63-69 | the reply is an `init` update with the document's text and options covering every configuration key |
| MessageHandler.ReadyReplyOptions | src/webview/messageHandler.ts:55-70 | `ready` posts exactly one `init` update and changes nothing else; a persisted option overrides the configuration's value of its key, every other key keeps the configuration's value |
| MessageHandler.EditOnlyWhileActive | src/webview/messageHandler.ts:76-81 | `edit` replaces the text and refreshes the title only while the panel is active; otherwise nothing changes |
| MessageHandler.SaveSyncsAndSaves | src/webview/messageHandler.ts:87-91 | `save` makes the text the message's content, leaves the document clean, refreshes the title and changes nothing else |
| MessageHandler.ResetThenReady | src/webview/messageHandler.ts:83-85 | after `reset-config` the persisted options are `{}` and the next `ready` sends the configuration alone |
| MessageHandler.SaveOptionsThenReady | src/webview/messageHandler.ts:72-74 | `save-options` persists the options as given and the next `ready` carries every one of them over the configuration |
| MessageHandler.UploadOutcome | src/webview/messageHandler.ts:93-126 | a folder that cannot be created gives one prefixed error and no write and no reply; otherwise one write per file and one reply with one backslash-free path per file |
| MessageHandler.OpenLinkTarget | src/webview/messageHandler.ts:128-134 | a link starting with `http` is opened as written, anything else resolved beside the document; nothing else changes |
| MessageHandler.OpenTarget | src/webview/messageHandler.ts:128-134 | a link starting with `http` is opened as written, anything else resolved against the document's folder |
| MessageHandler.DispatchEffects | src/webview/messageHandler.ts:16-52 | each command changes only its own part of the state: the title after `save` and an active `edit`, the text on those two, the saved text on `save`, the persisted options on `save-options` and `reset-config`, the settings on `update-outline-width`; theme and activity stay; posted messages, notices, written files and opened links only grow, by at most one post |
| MessageHandler.DispatchAllGrows | src/webview/messageHandler.ts:16-52 | over any sequence of messages the theme and activity stay, the logs only grow, and at most one message is posted per message received |
| MessageHandler.MessageHandler.PostReadyReply | src/webview/messageHandler.ts:55-70 | the `ready` branch leaves the host in the state `Dispatch` gives and the panel's page, title, reveals and disposal as they were |
| MessageHandler.MessageHandler.OpenExternal | src/webview/messageHandler.ts:128-134 | the `open-link` branch leaves the host in the state `Dispatch` gives |
| MessageHandler.UnknownAndTitle | src/webview/messageHandler.ts:16-53 | an unknown command changes nothing; the title is refreshed exactly after `save` and after `edit` while active; only those two change the text |
| MessageHandler.MessageHandler.HandleMessage | src/webview/messageHandler.ts:16-53 | the document, panel and host end in the state `Dispatch` gives, and the panel's page, title and reveal count are unchanged |
| MessageHandler.MessageHandler.SyncToEditor | src/webview/messageHandler.ts:140-155 | the document's text becomes the content; its saved text is kept |
| MessageHandler.MessageHandler.HandleUpload | src/webview/messageHandler.ts:93-126 | the host and panel end in the state `Dispatch` gives for the upload |
| MessageHandler.MessageHandler.constructor | src/webview/messageHandler.ts:7-14 | the handler is bound to the given host, panel, document and environment |
| EditorPanel.TitleFor | src/editor/editorPanel.ts:234-236 | the title is `[edit]` and the file name while edited, the file name alone otherwise |
| EditorPanel.TitleTellsDirty | src/editor/editorPanel.ts:230-238 | the two titles differ: the edited title starts with `[edit]` and ends with the file name |
| EditorPanel.LocalCssFiles | src/editor/editorPanel.ts:256 | the filtered list is no longer than the configured one |
| EditorPanel.LocalCssFilesExact | src/editor/editorPanel.ts:256 | the filter keeps exactly the configured files that are not http(s) URLs |
| EditorPanel.WatcherFor | src/editor/editorPanel.ts:259-347 | a file watcher exactly when the resolved file exists, a directory watcher when only its directory does, none when neither does; the watcher records the configured and the resolved path |
| EditorPanel.WatchersOfFiles | src/editor/editorPanel.ts:259-348 | at most one watcher per file, each for one of the files |
| EditorPanel.WatchersAreLocal | src/editor/editorPanel.ts:250-349 | every watcher is for a configured file that is not an http(s) URL, and there are no more watchers than files |
| EditorPanel.UpdateCssMessages | src/editor/editorPanel.ts:356-385 | nothing for a missing file or a failed URI conversion; otherwise one `update-css` with the configured path (the full path when that is empty), the full path, the webview URI and the timestamp |
| EditorPanel.WatcherReactions | src/editor/editorPanel.ts:296-337 | a file watcher posts `css-file-deleted` on deletion; every event posts at most one message; a directory watcher reacts only to the creation of its own file; every `update-css` carries the watched path and the event's timestamp |
| EditorPanel.ConfigMessageSelection | src/editor/editorPanel.ts:163-213 | `reload-all-css` is sent exactly when the stylesheet list changed and neither the custom CSS nor the load order did; each `config-update` is sent exactly when its group changed and carries only its own keys |
| EditorPanel.Reverse | src/editor/editorPanel.ts:391-396 | the list popped from the end, element by element |
| EditorPanel.Registry.constructor | src/editor/editorPanel.ts:11 | no current panel at first |
| EditorPanel.Registry.CreateOrShow | src/editor/editorPanel.ts:40-114 | a current panel for the same URI object is only revealed; one for another URI (or none) is disposed first; without URI or active editor, or with a non-markdown active document, one error and no panel; otherwise a fresh current panel for the opened or active document, with the page, the file name as title and all listeners |
| EditorPanel.Registry.OpenFindDialog | src/editor/editorPanel.ts:81-88 | one `open-find-dialog` with the flag is posted to the current panel, nothing without one |
| EditorPanel.EditorPanel.constructor | src/editor/editorPanel.ts:21-38 | a fresh panel and handler wired to the document; the page of the current configuration, the file name as title, the watchers of the local stylesheets, and all five listeners registered |
| EditorPanel.EditorPanel.Initialize | src/editor/editorPanel.ts:116-124 | the page of the current configuration, the file name as title, the dispose listener alone registered, one watcher per local stylesheet |
| EditorPanel.EditorPanel.UpdateEditTitle | src/editor/editorPanel.ts:230-238 | the flag becomes the document's dirty state; the title is rewritten only when the flag changes, and a title that matched the old flag matches the new one |
| EditorPanel.EditorPanel.SetupCssFileWatchers | src/editor/editorPanel.ts:250-349 | the old watchers are retired and the new list is the watchers of the local stylesheets |
| EditorPanel.EditorPanel.WatcherEvent | src/editor/editorPanel.ts:296-337 | a watcher of the current list posts its reaction; a retired one posts nothing |
| EditorPanel.EditorPanel.DocumentChanged | src/editor/editorPanel.ts:143-160 | the timer runs after a change of this document while the panel is not active; other changes leave it as it was |
| EditorPanel.EditorPanel.DebounceFires | src/editor/editorPanel.ts:156-159 | with the timer running, exactly one `update` of type `update` with the text and theme, then the title follows the dirty state; without it nothing changes |
| EditorPanel.EditorPanel.ConfigChanged | src/editor/editorPanel.ts:163-213 | the posted messages are `ConfigMessages` of the event; the page is rebuilt exactly when the custom CSS or load order changed; the watchers are rebuilt exactly when only the list changed |
| EditorPanel.EditorPanel.CssConfigChanged | src/editor/editorPanel.ts:167-190 | a new page when the custom CSS or load order changed; otherwise, for a stylesheet change, new watchers and one `reload-all-css` to post |
| EditorPanel.EditorPanel.GeneratePage | src/editor/editorPanel.ts:225-228 | the webview's page becomes the generated page of the configuration |
| EditorPanel.EditorPanel.ReceiveMessage | src/editor/editorPanel.ts:215-223 | while the listener is registered the host ends as `Dispatch` says and the title follows the dirty state when asked; after disposal nothing changes |
| EditorPanel.EditorPanel.DocumentClosed | src/editor/editorPanel.ts:136-140 | closing the file of this panel disposes it; any other file leaves it alone |
| EditorPanel.EditorPanel.Dispose | src/editor/editorPanel.ts:387-397 | no current panel, the webview disposed, and every listener disposed exactly once, last registered first |
| WebviewMain.InitEditor | media-src/src/core/editorInit.ts:128-201 | a new editor holds the content and nothing inserted; the full construction hides the toolbar (option and class alike) exactly when `showToolbar` is `false`, the fallback never does |
| WebviewMain.Init | media-src/src/main.ts:30-43 | when either construction succeeds the editor holds the content, nothing inserted, and `hide` agrees with the toolbar; after a throw only an editor showing its toolbar or the previous one results; when both throw the previous editor stays |
| WebviewMain.Inserted | media-src/src/features/upload/uploadHandler.ts:46-70 | inserting keeps the content and the toolbar state and appends exactly one markup per URL |
| WebviewMain.Step | media-src/src/main.ts:25-99 | only `init` can create an editor; another `update` sets the content; `uploaded` and `config-update` keep it; every other message leaves the editor as it was |
| WebviewMain.MarkupsAppend | media-src/src/features/upload/uploadHandler.ts:49-69 | the markups of two URL lists are the markups of their concatenation |
| WebviewMain.InsertedNext | media-src/src/features/upload/uploadHandler.ts:49-69 | inserting one URL more appends exactly that URL's markup |
| WebviewMain.InsertedNone | media-src/src/features/upload/uploadHandler.ts:46-49 | inserting no URL leaves the editor as it is |
| WebviewMain.InitBuildsEditor | media-src/src/main.ts:29-43 | `init` builds an editor with the message's content whatever existed before; when that throws, the retry with `{}` builds one whose toolbar is shown; only when both throw does the old editor stay |
| WebviewMain.UpdateNeedsEditor | media-src/src/main.ts:44-49 | any other `update` replaces the content of an existing editor and nothing else, and is ignored without one |
| WebviewMain.ToolbarVisibility | media-src/src/main.ts:61-93 | with a config holding `showToolbar` and an editor, `hide` and the hidden class both become the value's falsiness and nothing else changes; otherwise nothing changes |
| WebviewMain.UploadedInsertsInOrder | media-src/src/main.ts:53-59 | without a file list or an editor nothing changes; otherwise one markup per URL is appended in order, audio for `.wav`, and the content is kept |
| WebviewMain.OtherMessagesIgnored | media-src/src/main.ts:95-97 | the stylesheet and find-dialog messages reach the default branch and change nothing |
| WebviewMain.StepsKeepToolbarAgreement | media-src/src/main.ts:25-99 | every sequence of messages keeps the `hide` option and the toolbar's hidden class in agreement |
| WebviewMain.ReadyHandshake | media-src/src/main.ts:29-43 | after `ready` the host's reply is an `init` update, and the webview then holds an editor with the document's text; with nothing or `{}` persisted and the first construction succeeding, the toolbar is hidden exactly when `showToolbar` is stored as `false` |
| WebviewMain.ResetButtonEffect | media-src/src/features/toolbar/toolbarConfig.ts:46-66 | confirmed, the three messages leave `{}` persisted, one `init` with the configuration alone posted, one success notice and the text untouched; cancelled, nothing changes |
| WebviewMain.WebviewApp.constructor | media-src/src/main.ts:17-103 | no editor yet and exactly one `ready` sent |
| WebviewMain.WebviewApp.Receive | media-src/src/main.ts:25-99 | the editor becomes what `Step` gives for the message and nothing is sent |
| WebviewMain.WebviewApp.HandleUploadedFiles | media-src/src/features/upload/uploadHandler.ts:46-70 | nothing without an editor; otherwise the markups of all URLs are inserted, in order |
| WebviewMain.WebviewApp.InsertValue | media-src/src/features/upload/uploadHandler.ts:52-66 | the markup is appended to what the editor holds |
| WebviewMain.WebviewApp.ClickSave | media-src/src/features/toolbar/toolbarConfig.ts:71-76 | one `save` with the editor's content is sent |
| WebviewMain.WebviewApp.ClickReset | media-src/src/features/toolbar/toolbarConfig.ts:46-66 | confirmed: `reset-config`, `ready` and the success `info`, in that order; cancelled: nothing |
| WebviewMain.WebviewApp.UploadFiles | media-src/src/features/upload/uploadHandler.ts:15-38 | one `upload` message for the batch, or nothing when an encoding fails |
| Toolbar.Normalize | media-src/src/features/toolbar/toolbarConfig.ts:153-159 | a bare name becomes an object with tip position `s`; an object keeps its name, its sub-menu and a non-empty tip position, and gets `s` otherwise |
| Toolbar.NormalizeAll | media-src/src/features/toolbar/toolbarConfig.ts:153-159 | one normalised item per declared item, in order |
| Toolbar.ToolbarItems | media-src/src/features/toolbar/toolbarConfig.ts:81-159 | the toolbar handed to the editor has one item per declared item |
| Toolbar.ResetEditorConfigMessages | media-src/src/features/toolbar/toolbarConfig.ts:46-66 | confirmed: `reset-config`, `ready` and the success `info`, in that order; cancelled: nothing |
| Toolbar.SaveDocumentMessages | media-src/src/features/toolbar/toolbarConfig.ts:71-76 | exactly one `save` carrying the editor's content |
| Toolbar.NormalizePreserves | media-src/src/features/toolbar/toolbarConfig.ts:153-159 | count, order and names are kept, every tip position is non-empty, and declared positions and sub-menus survive |
| Toolbar.NormalizeIdempotent | media-src/src/features/toolbar/toolbarConfig.ts:153-159 | normalising an already normalised list changes nothing |
| Toolbar.DeclaredToolbar | media-src/src/features/toolbar/toolbarConfig.ts:81-152 | the toolbar has 29 items: `save` first with `s`, `edit-mode` and `more` last with `e`; sub-menu items are not normalised |
| Upload.FirstDisallowed | media-src/src/features/upload/uploadHandler.ts:21-24 | the first position from the start point that holds a character outside `\w`, `-`, `_`, `.`, or the end |
| Upload.RunEnd | media-src/src/features/upload/uploadHandler.ts:21-24 | the end of the run of such characters that starts there |
| Upload.Sanitize | media-src/src/features/upload/uploadHandler.ts:21-24 | a name of allowed characters is kept; otherwise only the first maximal run of other characters becomes one `_` |
| Upload.SanitizeKeepsLaterRuns | media-src/src/features/upload/uploadHandler.ts:21-24 | `my photo 1.png` becomes `my_photo 1.png`: without the `g` flag a later run stays |
| Upload.SanitizeShape | media-src/src/features/upload/uploadHandler.ts:21-24 | the part before the first disallowed character is kept, the name never grows, and no disallowed character is introduced |
| Upload.UploadNameKeepsStamp | media-src/src/features/upload/uploadHandler.ts:21-24 | after an allowed time stamp and `_`, the stored name is the stamp, `_` and the file's sanitised name |
| Upload.AllowedPrefixKept | media-src/src/features/upload/uploadHandler.ts:21-24 | sanitising behind a prefix of allowed characters leaves the prefix alone |
| Upload.UploadMessage | media-src/src/features/upload/uploadHandler.ts:15-38 | a message is sent exactly when every file encodes; it has one entry per file, in order, with the stored name and the content |
| Upload.Markup | media-src/src/features/upload/uploadHandler.ts:50-67 | audio for a `.wav` URL, otherwise an image when it loads as one and a link when it does not |
| Upload.LinkTextIsFileName | media-src/src/features/upload/uploadHandler.ts:64-66 | the link text is the URL's slash-free tail after its last `/` |
| Upload.Markups | media-src/src/features/upload/uploadHandler.ts:49-69 | one markup per URL, in order |
| OutlineResize.DefaultWidth | media-src/src-refactored/features/outline/resizableOutline.ts:17 | the configured width when non-zero, else 200 |
| OutlineResize.Position | media-src/src-refactored/features/outline/resizableOutline.ts:18 | the configured position when non-empty, else `left` |
| OutlineResize.ResizeEnabled | media-src/src-refactored/features/outline/resizableOutline.ts:16 | resizing is off exactly when `enableOutlineResize` is `false` |
| OutlineResize.Clamp | media-src/src-refactored/features/outline/resizableOutline.ts:113 | the width lies within 150 and 500, is kept when already inside and becomes the nearer bound otherwise |
| OutlineResize.DragWidth | media-src/src-refactored/features/outline/resizableOutline.ts:111-113 | every width a drag gives lies within 150 and 500 |
| OutlineResize.Delta | media-src/src-refactored/features/outline/resizableOutline.ts:111 | the mouse's movement to the right for a left outline, to the left otherwise |
| OutlineResize.DragMonotone | media-src/src-refactored/features/outline/resizableOutline.ts:107-122 | moving further right widens a left outline and narrows a right one; back at the start point an in-bounds width is restored |
| OutlineResize.ResizableOutline.constructor | media-src/src-refactored/features/outline/resizableOutline.ts:12-41 | without options nothing happens; with the outline present it gets the default width, and the handle unless resizing is off; no drag, nothing sent |
| OutlineResize.ResizableOutline.HandleMouseDown | media-src/src-refactored/features/outline/resizableOutline.ts:95-104 | with a handle, the drag starts at the mouse and the rendered width and the body is styled for dragging; nothing sent |
| OutlineResize.ResizableOutline.MouseMove | media-src/src-refactored/features/outline/resizableOutline.ts:107-122 | during a drag the outline takes the clamped width and exactly that width is sent once; otherwise nothing changes and nothing is sent |
| OutlineResize.ResizableOutline.MouseUp | media-src/src-refactored/features/outline/resizableOutline.ts:125-131 | the drag ends and the body styles are cleared when a drag was on |
| OutlineResize.ResizableOutline.HandleDoubleClick | media-src/src-refactored/features/outline/resizableOutline.ts:134-142 | with a handle, the width returns to the default and that width is sent |
| OutlineResize.DragRunBounded | media-src/src-refactored/features/outline/resizableOutline.ts:107-122 | a run of moves during a drag sends one message per move, each with a width within 150 and 500 |
| ImageResize.GetResizeDirection | media-src/src/features/image/imageResize.ts:179-200 | the classifier gives a direction exactly when the edge test holds |
| ImageResize.GetResizeCursor | media-src/src/features/image/imageResize.ts:205-222 | `default` exactly for a string that is none of the eight directions |
| ImageResize.StartCursor | media-src/src/features/image/imageResize.ts:345-363 | the cursor of `getResizeCursor` for every direction, and `nw-resize` for any other string |
| ImageResize.PointerMoved | media-src/src/features/image/imageResize.ts:141-174 | a mouse move changes only the image's cursor, edge flag and outline |
| ImageResize.SizeText | media-src/src/features/image/imageResize.ts:568-569 | the size text holds no `$` and no double quote |
| ImageResize.ImgTag | media-src/src/features/image/imageResize.ts:583 | a tag built from a `$`-free source and text holds no `$`, so the replacement inserts it as written |
| ImageResize.UpdatedContent | media-src/src/features/image/imageResize.ts:586-609 | the rewrite fails when the HTML or the markdown pattern does not compile, and only when one of the three patterns does not |
| ImageResize.DirectionBands | media-src/src/features/image/imageResize.ts:179-200 | each of the eight directions exactly in terms of the four 10-pixel bands, corners first and left and top winning over right and bottom |
| ImageResize.CursorsAgree | media-src/src/features/image/imageResize.ts:205-222 | opposite directions share a cursor, no direction gets `default`, and the cursor switch of `startResize` (lines 345-363) agrees with it on every direction; on other strings they give `default` and `nw-resize` |
| ImageResize.PointerMovedMarksEdge | media-src/src/features/image/imageResize.ts:141-174 | the edge flag becomes `true` exactly on the edge, with the direction's cursor, and off the edge the cursor is cleared |
| ImageResize.MarkdownPatternIsLiteral | media-src/src/features/image/imageResize.ts:587 | the markdown pattern is the escaped markdown image and denotes exactly its characters |
| ImageResize.MarkdownStep | media-src/src/features/image/imageResize.ts:587-600 | the markdown pattern always compiles and matches exactly where `![alt](src)` occurs |
| ImageResize.MarkdownImageRewritten | media-src/src/features/image/imageResize.ts:586-600 | with no HTML tag found and a markdown image present, the new source is the tag spliced at every non-overlapping occurrence the scan finds, in order |
| ImageResize.SpliceWhole | media-src/src/features/image/imageResize.ts:599 | replacing a match that covers the whole source leaves just the tag |
| ImageResize.SingleMarkdownImageRewritten | media-src/src/features/image/imageResize.ts:559-631 | a source that is one markdown image becomes exactly the new tag; a size that is not a number is written `NaN` |
| ImageResize.ImageResizer.constructor | media-src/src/features/image/imageResize.ts:32-88 | the document listeners are attached and no drag is in progress |
| ImageResize.ImageResizer.AddImage | media-src/src/features/image/imageResize.ts:43-62 | a new image joins the list with no flags and no listeners |
| ImageResize.ImageResizer.SetupHandlers | media-src/src/features/image/imageResize.ts:227-301 | every unflagged image gets the flag and one more set of listeners; flagged images stay as they are |
| ImageResize.ImageResizer.ImageMouseMove | media-src/src/features/image/imageResize.ts:248-250 | on an image whose listeners are bound only that image changes, as the edge test and classifier say; an image without listeners does not react |
| ImageResize.ImageResizer.ImageMouseLeave | media-src/src/features/image/imageResize.ts:252-265 | on an image whose listeners are bound, its cursor is cleared and its edge flag becomes `false`, and nothing else changes; an image without listeners does not react |
| ImageResize.ImageResizer.ImageMouseDown | media-src/src/features/image/imageResize.ts:289-299 | on an image whose listeners are bound, a drag starts exactly when the edge flag is `true` and the mouse has a direction, with the direction's cursor on body and image and the image's pointer events off; otherwise nothing changes |
| ImageResize.ImageResizer.StartResize | media-src/src/features/image/imageResize.ts:341-405 | the drag records start point, size, direction and image; body and image get the direction's cursor with `!important` |
| ImageResize.ImageResizer.MouseMove | media-src/src/features/image/imageResize.ts:424-509 | during a drag only the dragged image's inline size changes, to the given size; otherwise nothing changes |
| ImageResize.ImageResizer.MouseUp | media-src/src/features/image/imageResize.ts:514-554 | at the end of a drag the image's attributes get its inline size, the drag state and styles are reset and the source is rewritten; outside a drag nothing changes |
| ImageResize.ImageResizer.UpdateMarkdownImageSize | media-src/src/features/image/imageResize.ts:559-631 | without an editor nothing; the rewritten source is set and sent as one `edit` exactly when it differs; a pattern that throws changes nothing |
| ImageResize.ImageResizer.Cleanup | media-src/src/features/image/imageResize.ts:655-667 | the document listeners are detached and every image loses its flag; nothing else changes |
| CssHandler.NormalizeSpec | media-src/src/features/css/cssHandler.ts:16 | a normalised path holds no backslash, keeps every other character in place and is a fixed point of normalising |
| CssHandler.Normalize | media-src/src/features/css/cssHandler.ts:16 | the normalised path has the path's length and no backslash |
| CssHandler.BaseName | media-src/src/features/css/cssHandler.ts:276 | the file name is empty or a suffix of the path, and holds no slash or backslash |
| CssHandler.FileNameSpec | media-src/src/features/css/cssHandler.ts:19 | the file name is the slash-free tail of the normalised path, preceded by a `/` whenever it is shorter than the path |
| CssHandler.FirstDataSourceMatch | media-src/src/features/css/cssHandler.ts:23-35 | the first link from a position on whose data source is set and names the file by path, normalised path or file name; none exactly when no later link does |
| CssHandler.FirstHrefMatch | media-src/src/features/css/cssHandler.ts:38-67 | the first link whose href holds the normalised path or whose URL ends in the file name (with or without a query), falling back to a substring test when the URL does not parse; none exactly when no link does |
| CssHandler.FindLinkSpec | media-src/src/features/css/cssHandler.ts:11-71 | a data-source match anywhere beats every href match, the first of each kind is taken, and nothing is found exactly when no link meets either test |
| CssHandler.FindLink | media-src/src/features/css/cssHandler.ts:11-71 | what is found is a position of the head holding a link |
| CssHandler.FindCssLinkTag | media-src/src/features/css/cssHandler.ts:11-71 | the two loops compute exactly the link the specification above picks |
| CssHandler.DataSourcePass | media-src/src/features/css/cssHandler.ts:23-35 | the first loop returns the first data-source match |
| CssHandler.HrefPass | media-src/src/features/css/cssHandler.ts:38-67 | the second loop returns the first href match |
| CssHandler.IsDataSourceMatch | media-src/src/features/css/cssHandler.ts:27-31 | the data-source test on one link |
| CssHandler.IsHrefMatch | media-src/src/features/css/cssHandler.ts:43-66 | the href test on one link, including the branch where the URL does not parse |
| CssHandler.ExternalHrefSpec | media-src/src/features/css/cssHandler.ts:169-179 | remote URLs are kept verbatim; a local path becomes a `vscode-resource:` URI ending in `?t=` and the timestamp, left as it is when it already has the scheme |
| CssHandler.ExternalHref | media-src/src/features/css/cssHandler.ts:169-179 | the href is never shorter than the normalised path |
| CssHandler.LocalHrefShape | media-src/src/features/css/cssHandler.ts:172-176 | a local href starts with the resource scheme and ends with the query, and is the path plus the query exactly when the path already has the scheme |
| CssHandler.ExternalLink | media-src/src/features/css/cssHandler.ts:163-180 | the link created for a file is dynamic, carries the new id and has the normalised path as data source |
| CssHandler.ReplaceNode | media-src/src/features/css/cssHandler.ts:182-183 | inserting before a node and removing it puts the new node at its position and leaves all others |
| CssHandler.InsertBefore | media-src/src/features/css/cssHandler.ts:255 | the new node sits at the position and the others shift by one, in order |
| CssHandler.RemoveNode | media-src/src/features/css/cssHandler.ts:309 | one node fewer, the others keep their order |
| CssHandler.AddOneSpec | media-src/src/features/css/cssHandler.ts:157-219 | a new file's link takes the found link's place or is appended; it is dynamic, names the normalised path and is cross-origin exactly for remote URLs |
| CssHandler.AddOne | media-src/src/features/css/cssHandler.ts:157-219 | one new file uses exactly one fresh id |
| CssHandler.AddOneKeepsOthers | media-src/src/features/css/cssHandler.ts:157-219 | one added link keeps every node that is not a link and adds only a link with the new id |
| CssHandler.KeptOncePerPath | media-src/src/features/css/cssHandler.ts:143-155 | the files processed have pairwise different normalised paths, come from the list and cover every normalised path of it |
| CssHandler.Kept | media-src/src/features/css/cssHandler.ts:143-155 | no more files are processed than the list holds |
| CssHandler.AddLinksIsAddEachKept | media-src/src/features/css/cssHandler.ts:141-221 | adding the external links is one addition per kept file, in list order |
| CssHandler.AddLinks | media-src/src/features/css/cssHandler.ts:141-221 | one fresh element id is used per kept file |
| CssHandler.AddLinksKeepsOthers | media-src/src/features/css/cssHandler.ts:141-221 | adding the external links keeps every node that is not a link and adds only links with fresh ids |
| CssHandler.WithoutDynamic | media-src/src/features/css/cssHandler.ts:82-94 | exactly the nodes that are not dynamic links stay |
| CssHandler.WithoutDynamicKeepsIds | media-src/src/features/css/cssHandler.ts:89-94 | removing links keeps the element identities distinct |
| CssHandler.FindCustomStyle | media-src/src/features/css/cssHandler.ts:97 | the first style element with the id `custom-css`, or none when there is none |
| CssHandler.PrepareSpec | media-src/src/features/css/cssHandler.ts:80-105 | after the first part of a reload no dynamic link is left and the custom style element holds `customCss \|\| ''` |
| CssHandler.Prepare | media-src/src/features/css/cssHandler.ts:96-105 | an id is used only when the custom style is appended, and then the style, with `customCss \|\| ''`, is the last node |
| CssHandler.MovedToEndIsLast | media-src/src/features/css/cssHandler.ts:124 | moving the style keeps the same nodes and puts the style last |
| CssHandler.MovedToEnd | media-src/src/features/css/cssHandler.ts:124 | moving keeps the length, and without a node of that id nothing moves |
| CssHandler.MovedToEndMembers | media-src/src/features/css/cssHandler.ts:124 | moving a node to the end keeps exactly the same nodes |
| CssHandler.MovedNodeIsLast | media-src/src/features/css/cssHandler.ts:124 | with distinct ids, the node that ends up last is the one carrying the id |
| CssHandler.Reload | media-src/src/features/css/cssHandler.ts:77-134 | without a files list a reload uses only the ids the first part uses; with one, one more id per processed file |
| CssHandler.AddedAfterPrepare | media-src/src/features/css/cssHandler.ts:84-134 | adding external links after the first part keeps the custom style and brings back no old dynamic link |
| CssHandler.ReloadSpec | media-src/src/features/css/cssHandler.ts:77-134 | after a reload no dynamic link that was in the head survives, the custom style holding `customCss \|\| ''` is in the head, and with a files list under any order but `custom-first` it is the last node |
| CssHandler.LastSimilar | media-src/src/features/css/cssHandler.ts:274-282 | the last link whose href holds the file name, or none when no link does |
| CssHandler.DeleteRemovesOnlyFound | media-src/src/features/css/cssHandler.ts:300-317 | deleting removes exactly the link found and nothing else |
| CssHandler.Head.constructor | media-src/src/features/css/cssHandler.ts:11-13 | a head with distinct element ids and no pending removal |
| CssHandler.Head.AddExternalCssLinks | media-src/src/features/css/cssHandler.ts:141-221 | the loop with its set of processed paths ends in the head the specification describes |
| CssHandler.Head.AddStep | media-src/src/features/css/cssHandler.ts:157-219 | one new file replaces the found link or appends a link |
| CssHandler.Head.ReloadAllCss | media-src/src/features/css/cssHandler.ts:77-134 | the head and the next id become the ones `Reload` describes: prepared, then with a files list the external links added and, unless the order is `custom-first`, the style moved last; the pending removal is kept |
| CssHandler.Head.PrepareHead | media-src/src/features/css/cssHandler.ts:80-105 | dynamic links removed, the custom style found or appended at the end, its text set |
| CssHandler.Head.MoveToEnd | media-src/src/features/css/cssHandler.ts:124 | appending a node already in the head moves it to the end |
| CssHandler.Head.RemoveDynamicLinks | media-src/src/features/css/cssHandler.ts:89-94 | the loop removes exactly the dynamic links |
| CssHandler.Head.UpdateCssFile | media-src/src/features/css/cssHandler.ts:229-294 | the new link (data source the file as given, href `uri?t=timestamp`) goes before the found link, which is scheduled for removal; otherwise after the last similar link or at the end |
| CssHandler.Head.InsertUpdated | media-src/src/features/css/cssHandler.ts:235-289 | where the new link goes, and which link it replaces |
| CssHandler.Head.RemoveReplacedLink | media-src/src/features/css/cssHandler.ts:247-264 | a scheduled link goes if it is still there, once, whichever of the load event and the timeout comes first |
| CssHandler.Head.HandleCssFileDeleted | media-src/src/features/css/cssHandler.ts:300-317 | the found link is removed and nothing else changes; with none found nothing changes |
| FindReplace.Annotate | media-src/src/features/findReplace/findReplaceHandler.ts:376-387 | one record per match, each the match's own line and column |
| FindReplace.Locate | media-src/src/features/findReplace/findReplaceHandler.ts:376-387 | the record of one match: its offset and length, the number of lines before it, and one more than the length of the last of them |
| FindReplace.FindInText | media-src/src/features/findReplace/findReplaceHandler.ts:368-399 | the `exec` loop, with `lastIndex` stepped past empty matches, returns exactly the matches of the global expression in order, and nothing when the expression does not compile |
| FindReplace.Matches | media-src/src/features/findReplace/findReplaceHandler.ts:368-399 | when the global expression does not compile no match is found |
| FindReplace.NextResult | media-src/src/features/findReplace/findReplaceHandler.ts:375-392 | one round records the match and moves `lastIndex` strictly forward, so the loop ends |
| FindReplace.MatchesInOrder | media-src/src/features/findReplace/findReplaceHandler.ts:368-399 | the matches lie inside the source, start at strictly increasing offsets and do not overlap |
| FindReplace.AnnotateInOrder | media-src/src/features/findReplace/findReplaceHandler.ts:376-387 | adding line and column keeps offsets and lengths, hence the order |
| FindReplace.ResultPosition | media-src/src/features/findReplace/findReplaceHandler.ts:377-380 | a match's line is one more than the line feeds before it and its column one more than the characters since the last of them |
| FindReplace.MatchPosition | media-src/src/features/findReplace/findReplaceHandler.ts:368-399 | every match found carries the line and column of its offset |
| FindReplace.LiteralMatchesAreOccurrences | media-src/src/features/findReplace/findReplaceHandler.ts:604-613 | outside regex mode every match is the query itself (up to ASCII letter case unless match-case is on), between word boundaries in whole-word mode |
| FindReplace.LiteralMatchesComplete | media-src/src/features/findReplace/findReplaceHandler.ts:604-613 | outside regex mode every occurrence of the query is found, or lies inside a match found before it |
| FindReplace.ReExecFindsTarget | media-src/src/features/findReplace/findReplaceHandler.ts:519-528 | running the expression again from a recorded match's offset finds that very match, so the fallback range of `replaceCurrent` is never needed |
| FindReplace.FindCountLabelReadsBack | media-src/src/features/findReplace/findReplaceHandler.ts:574-581 | the label is `无匹配` exactly when the total is 0, and otherwise reads back as `current/total` |
| FindReplace.NavigationInRange | media-src/src/features/findReplace/findReplaceHandler.ts:463-498 | from index -1 or any match, both steps land on a match |
| FindReplace.NextIndex | media-src/src/features/findReplace/findReplaceHandler.ts:469 | JavaScript's remainder: the index lies strictly between minus the count and the count, and is not positive when the dividend is negative |
| FindReplace.PrevIndex | media-src/src/features/findReplace/findReplaceHandler.ts:489 | the same range for the step back, not positive when the dividend is negative |
| FindReplace.NextPrevInverse | media-src/src/features/findReplace/findReplaceHandler.ts:463-498 | one step forward and one back, in either order, return to the same match |
| FindReplace.NextSteps | media-src/src/features/findReplace/findReplaceHandler.ts:469 | repeated forward steps never go below -1 |
| FindReplace.PrevSteps | media-src/src/features/findReplace/findReplaceHandler.ts:489 | repeated backward steps never go below -1 |
| FindReplace.NextStepsWrap | media-src/src/features/findReplace/findReplaceHandler.ts:469 | `k` forward steps from a match advance by `k` modulo the count |
| FindReplace.PrevStepsWrap | media-src/src/features/findReplace/findReplaceHandler.ts:489 | `k` backward steps from a match go back by `k` modulo the count |
| FindReplace.NavigationCycles | media-src/src/features/findReplace/findReplaceHandler.ts:463-498 | as many steps as there are matches, in either direction, come back to the start |
| FindReplace.ReplaceAtFrame | media-src/src/features/findReplace/findReplaceHandler.ts:530 | replacing one match keeps the text before and after and puts the replacement between |
| FindReplace.ReplaceAllAgreesOnSingleMatch | media-src/src/features/findReplace/findReplaceHandler.ts:503-569 | with one match and a replacement without `$`, replacing all and replacing the current match give the same source |
| FindReplace.ReplaceTemplateDivergence | media-src/src/features/findReplace/findReplaceHandler.ts:503-569 | `replaceAll` reads `$&` as the match while `replaceCurrent` inserts it literally: on `ab` they give `aab` and `$&$&b` |
| FindReplace.Toggle | media-src/src/features/findReplace/findReplaceHandler.ts:249-251 | exactly the chosen option flips |
| FindReplace.ToggleTwice | media-src/src/features/findReplace/findReplaceHandler.ts:249-251 | pressing an option button twice restores the options |
| FindReplace.FindReplaceHandler.constructor | media-src/src/features/findReplace/findReplaceHandler.ts:21-39 | panel hidden, empty inputs, the three options off, no results, index -1, an empty overlay |
| FindReplace.FindReplaceHandler.SetEditorContent | media-src/src/features/findReplace/findReplaceHandler.ts:323-327 | the source becomes the text when there is an editor, and nothing else changes |
| FindReplace.FindReplaceHandler.UpdateFindCount | media-src/src/features/findReplace/findReplaceHandler.ts:574-600 | the label for the numbers, and both buttons enabled exactly when the total is positive |
| FindReplace.FindReplaceHandler.ClearHighlights | media-src/src/features/findReplace/findReplaceHandler.ts:444-457 | no results, index -1, no boxes, everything else kept |
| FindReplace.FindReplaceHandler.HighlightResults | media-src/src/features/findReplace/findReplaceHandler.ts:404-439 | for a non-empty query the overlay shows the query's matches with the current index and scrolls to the current box; it throws exactly when the overlay's expression does not compile |
| FindReplace.FindReplaceHandler.PerformFind | media-src/src/features/findReplace/findReplaceHandler.ts:343-363 | an empty query or no match clears the session with the no-match label; otherwise the matches of the source, index 0, label `1/n`, matches highlighted |
| FindReplace.FindReplaceHandler.FindNext | media-src/src/features/findReplace/findReplaceHandler.ts:463-478 | with no results a fresh search; otherwise the next index with wrap-around, its label, and the current box restyled and scrolled to |
| FindReplace.FindReplaceHandler.FindPrevious | media-src/src/features/findReplace/findReplaceHandler.ts:483-498 | with no results a fresh search; otherwise the previous index with wrap-around, its label, and the current box restyled and scrolled to |
| FindReplace.FindReplaceHandler.MoveTo | media-src/src/features/findReplace/findReplaceHandler.ts:469-477 | the given index becomes current, with its label, the overlay redrawn and the box scrolled to twice |
| FindReplace.FindReplaceHandler.Reselect | media-src/src/features/findReplace/findReplaceHandler.ts:474-477 | the second restyle and scroll after a redraw |
| FindReplace.FindReplaceHandler.ReplaceCurrent | media-src/src/features/findReplace/findReplaceHandler.ts:503-537 | an empty query changes nothing; a current index outside the fresh matches only refreshes the results; otherwise the current match is replaced by the replacement as written and the source is searched again |
| FindReplace.FindReplaceHandler.WriteReplacement | media-src/src/features/findReplace/findReplaceHandler.ts:515-531 | the source written is the text around the target match with the replacement between |
| FindReplace.FindReplaceHandler.ReplaceReExecuted | media-src/src/features/findReplace/findReplaceHandler.ts:519-530 | the range of the match found again at the target's offset is the target's own range |
| FindReplace.FindReplaceHandler.ReplaceAll | media-src/src/features/findReplace/findReplaceHandler.ts:542-569 | with results, a non-empty query and a compiling expression, every match is replaced with the template expanded and the session is cleared; otherwise nothing changes |
| FindReplace.FindReplaceHandler.ToggleOption | media-src/src/features/findReplace/findReplaceHandler.ts:249-253 | one option flips and the source is searched again |
| FindReplace.FindReplaceHandler.Show | media-src/src/features/findReplace/findReplaceHandler.ts:146-190 | the panel is visible, the replace row shown when asked, and a non-empty selection becomes the query and is searched |
| FindReplace.FindReplaceHandler.Hide | media-src/src/features/findReplace/findReplaceHandler.ts:195-200 | the panel is hidden and the results and boxes are cleared |
| FindReplace.FindReplaceHandler.ToggleReplace | media-src/src/features/findReplace/findReplaceHandler.ts:229-244 | the replace row's display flips |
| FindReplace.FindReplaceHandler.SetFindValue | media-src/src/features/findReplace/findReplaceHandler.ts:260-267 | the find input changes and nothing else until the debounce timer fires |
| FindReplace.FindReplaceHandler.SetReplaceValue | media-src/src/features/findReplace/findReplaceHandler.ts:515 | the replace input changes and nothing else |
| FindReplace.FindReplaceHandler.OnEditorInput | media-src/src/features/findReplace/findReplaceHandler.ts:205-215 | an edit removes the boxes and keeps results and index |
| FindReplace.FindReplaceHandler.OnScrollOrResize | media-src/src/features/findReplace/findReplaceHandler.ts:220-224 | the overlay is redrawn with its last arguments |
| HighlightOverlay.PositionsSnoc | media-src/src/features/findReplace/highlightOverlay.ts:120-160 | the walker's next text node adds its boxes after those of the nodes before it |
| HighlightOverlay.PositionsAppend | media-src/src/features/findReplace/highlightOverlay.ts:120-160 | the boxes of two runs of text nodes concatenate, in document order |
| HighlightOverlay.VisibleRectsVisible | media-src/src/features/findReplace/highlightOverlay.ts:140-150 | only rectangles of positive width and height give boxes, at most one per rectangle |
| HighlightOverlay.NodeRectsVisible | media-src/src/features/findReplace/highlightOverlay.ts:131-159 | every box of a text node's matches is visible |
| HighlightOverlay.PositionsVisible | media-src/src/features/findReplace/highlightOverlay.ts:92-163 | every box the overlay draws has positive width and height |
| HighlightOverlay.BlankNodeAddsNothing | media-src/src/features/findReplace/highlightOverlay.ts:125 | a text node of white space only adds no box, wherever it stands |
| HighlightOverlay.VisibleBoxes | media-src/src/features/findReplace/highlightOverlay.ts:139-150 | the loop over client rectangles keeps the visible ones, moved by the window's scroll offsets |
| HighlightOverlay.MatchBoxes | media-src/src/features/findReplace/highlightOverlay.ts:132-153 | a match's boxes, none when the range cannot be built |
| HighlightOverlay.NodeBoxes | media-src/src/features/findReplace/highlightOverlay.ts:121-159 | no box for an empty or blank node, otherwise those of every match of a fresh expression |
| HighlightOverlay.ScanBoxes | media-src/src/features/findReplace/highlightOverlay.ts:131-159 | the `exec` loop over one node, stepping past empty matches, gathers the boxes of every match in order |
| HighlightOverlay.NextBoxes | media-src/src/features/findReplace/highlightOverlay.ts:131-158 | one round adds the match's boxes and moves `lastIndex` strictly forward |
| HighlightOverlay.DoneRects | media-src/src/features/findReplace/highlightOverlay.ts:131 | a scan that finds nothing adds no box |
| HighlightOverlay.StepRects | media-src/src/features/findReplace/highlightOverlay.ts:131-158 | a scan's boxes are its first match's, then the rest's |
| HighlightOverlay.FindTextPositions | media-src/src/features/findReplace/highlightOverlay.ts:92-163 | nothing for an empty text or query, `None` when the expression does not compile, otherwise every node's boxes in document order |
| HighlightOverlay.Render | media-src/src/features/findReplace/highlightOverlay.ts:68-84 | one box per rectangle, in order, exactly the one at the current index styled as current |
| HighlightOverlay.Restyle | media-src/src/features/findReplace/highlightOverlay.ts:318-336 | the same boxes with only the current style moved |
| HighlightOverlay.RestyleRender | media-src/src/features/findReplace/highlightOverlay.ts:318-336 | restyling drawn boxes is drawing them with the new current index |
| HighlightOverlay.RestyleShown | media-src/src/features/findReplace/highlightOverlay.ts:318-336 | restyling freshly drawn boxes for the index they were drawn with changes nothing |
| HighlightOverlay.ScrollTargetFor | media-src/src/features/findReplace/highlightOverlay.ts:205-229 | the scroll offset is never above the top |
| HighlightOverlay.ScrollCentres | media-src/src/features/findReplace/highlightOverlay.ts:205-229 | the box's middle is brought to the middle of the window or container, or the offset is 0 exactly when that would scroll above the top |
| HighlightOverlay.Overlay.constructor | media-src/src/features/findReplace/highlightOverlay.ts:16-35 | an attached, empty container with no recorded arguments |
| HighlightOverlay.Overlay.ShowHighlights | media-src/src/features/findReplace/highlightOverlay.ts:40-87 | a removed overlay draws and records nothing; otherwise the arguments are recorded and the boxes are exactly those of the query, with the count returned, or nothing drawn when the expression does not compile |
| HighlightOverlay.Overlay.ClearHighlights | media-src/src/features/findReplace/highlightOverlay.ts:168-172 | the container is emptied and nothing else changes |
| HighlightOverlay.Overlay.Destroy | media-src/src/features/findReplace/highlightOverlay.ts:177-182 | the container is gone and holds no box |
| HighlightOverlay.Overlay.UpdateCurrentHighlight | media-src/src/features/findReplace/highlightOverlay.ts:318-336 | the box at the index gets the current style and every other box the plain one |
| HighlightOverlay.Overlay.ScrollToHighlight | media-src/src/features/findReplace/highlightOverlay.ts:187-237 | one scroll request exactly when the overlay is attached, the index names a box and a content element exists |
| HighlightOverlay.Overlay.Resync | media-src/src/features/findReplace/highlightOverlay.ts:338-342 | without recorded arguments nothing; otherwise the query is drawn again against the page as it is |
| RegexLiteral.EscapeAppend | media-src/src/features/image/imageResize.ts:636-638 | escaping a concatenation is concatenating the escapes |
| RegexLiteral.EscapePlain | media-src/src/features/image/imageResize.ts:636-638 | a query without metacharacters is left as it is |
| RegexLiteral.EscapeLength | media-src/src/features/image/imageResize.ts:636-638 | escaping adds at most one backslash per character |
| RegexLiteral.Lits | media-src/src/features/findReplace/findReplaceHandler.ts:608 | one literal atom per character of the query, in order |
| RegexLiteral.ParseEscapedCharThen | media-src/src/features/findReplace/findReplaceHandler.ts:608 | an escaped character reads back as its own literal, whatever follows |
| RegexLiteral.ParseEscapedThen | media-src/src/features/findReplace/findReplaceHandler.ts:608 | an escaped string reads back as its own characters, whatever follows |
| RegexLiteral.EscapeRoundTrip | media-src/src/features/findReplace/findReplaceHandler.ts:608 | escaping is undone by reading the pattern: the escaped query denotes exactly its characters |
| RegexLiteral.ParseBoundaryThen | media-src/src/features/findReplace/findReplaceHandler.ts:609-611 | a leading `\b` reads as a word-boundary atom |
| RegexLiteral.OverlayAgreesWithEngine | media-src/src/features/findReplace/highlightOverlay.ts:100-109 | the overlay's expression is the engine's global expression, so it highlights the matches the engine counts |
| RegexLiteral.BuildRegexLiteral | media-src/src/features/findReplace/findReplaceHandler.ts:604-613 | outside regex mode the expression ignores case exactly when match-case is off, is global exactly when asked, and denotes the query literally, between boundaries in whole-word mode |
| LiteralMatch.AtomsMatchAt | media-src/src/features/findReplace/findReplaceHandler.ts:604-613 | a literal pattern's match never runs past the text |
| LiteralMatch.MatchAt | media-src/src/features/findReplace/findReplaceHandler.ts:375 | a match never runs past the text |
| LiteralMatch.FirstMatchFromSpec | media-src/src/features/findReplace/findReplaceHandler.ts:375 | `exec` finds the leftmost match at or after `lastIndex`, and `null` means there is none |
| LiteralMatch.NextLastIndexAdvances | media-src/src/features/findReplace/findReplaceHandler.ts:389-392 | after a match `lastIndex` moves strictly forward and at most one past the end |
| LiteralMatch.ScanStep | media-src/src/features/findReplace/findReplaceHandler.ts:375-393 | the scan is the first match followed by the scan from where it leaves `lastIndex` |
| LiteralMatch.ScanWellFormed | media-src/src/features/findReplace/findReplaceHandler.ts:375-393 | the scan yields real matches inside the text, in increasing order and without overlap |
| LiteralMatch.ScanComplete | media-src/src/features/findReplace/findReplaceHandler.ts:375-393 | every position where the pattern matches is a found match or lies inside one |
| LiteralMatch.ScanOrdered | media-src/src/features/findReplace/findReplaceHandler.ts:375-393 | the scan is ordered from its starting point |
| LiteralMatch.SpliceAll | media-src/src/features/findReplace/findReplaceHandler.ts:558 | splicing into no match changes nothing and the text before the first match is kept |
| LiteralMatch.ReplaceMatchesAsSplices | media-src/src/features/findReplace/findReplaceHandler.ts:558 | a `$`-free template replaces the matches from a position on as one splice each |
| LiteralMatch.ReplaceAllIsSplices | media-src/src/features/findReplace/findReplaceHandler.ts:558 | a global replace with a `$`-free replacement splices it into every match the scan finds |
| LiteralMatch.FoldOccursExact | media-src/src/features/findReplace/findReplaceHandler.ts:605 | without the `i` flag, folding occurrence is plain occurrence |
| LiteralMatch.LitsMatch | media-src/src/features/findReplace/findReplaceHandler.ts:608 | a run of literal atoms matches exactly where its characters occur, as long as the query |
| LiteralMatch.AtomsMatchLit | media-src/src/features/findReplace/findReplaceHandler.ts:608 | a literal atom first: its character at the position, then the rest |
| LiteralMatch.FoldOccursStep | media-src/src/features/findReplace/findReplaceHandler.ts:605 | an occurrence is a first character followed by the rest |
| LiteralMatch.AtomsAppend | media-src/src/features/findReplace/findReplaceHandler.ts:609-611 | matching concatenated atoms is matching the first part, then the second after it |
| LiteralMatch.ThenShift | media-src/src/features/findReplace/findReplaceHandler.ts:608 | a character match followed by a match after it is one match one longer |
| LiteralMatch.WholeWordMatch | media-src/src/features/findReplace/findReplaceHandler.ts:609-611 | a whole-word query matches exactly where it occurs with word boundaries at both ends, as long as the query |
| LiteralMatch.LiteralQuerySemantics | media-src/src/features/findReplace/findReplaceHandler.ts:604-613 | outside regex mode the query compiles without the engine and matches exactly where its characters occur, up to case unless match-case is on, with boundaries in whole-word mode |
| Text.IndexOfFrom | media-src/src/features/css/cssHandler.ts:49 | the first occurrence at or after the position, none exactly when there is none |
| Text.ContainsIff | media-src/src/features/css/cssHandler.ts:49 | `includes` holds exactly when the string occurs somewhere |
| Text.Split | media-src/src/features/findReplace/findReplaceHandler.ts:378 | splitting always gives at least one piece |
| Text.SplitCount | media-src/src/features/findReplace/findReplaceHandler.ts:378-379 | one more piece than separators, so the line is one more than the line feeds before a match |
| Text.LastSegmentIsSuffix | media-src/src/features/css/cssHandler.ts:19 | the last piece is the separator-free suffix, all of the string or preceded by a separator |
| Text.SplitNone | media-src/src/features/css/cssHandler.ts:19 | a string without separators is one piece |
| Text.SplitTwo | media-src/src/features/findReplace/findReplaceHandler.ts:579 | two separator-free strings joined by one separator split back into the two |
| Text.SplitAppend | media-src/src/features/findReplace/findReplaceHandler.ts:378 | a separator and a separator-free tail add one piece |
| Text.SplitJoin | media-src/src/features/css/cssHandler.ts:19 | joining separator-free pieces and splitting again gives them back |
| Text.ReplaceChar | media-src/src/features/css/cssHandler.ts:16 | every occurrence of one character becomes the other and nothing else changes |
| Text.ExpandPlain | media-src/src/features/findReplace/findReplaceHandler.ts:558 | a replacement without `$` is inserted as written |
| Text.ReplaceFirstAt | src/utils/index.ts:20-30 | with a `$`-free replacement only the first occurrence is replaced |
| Text.ReplaceFirstAbsent | media-src/src/i18n/lang.ts:68 | replacing an absent pattern changes nothing |
| Text.NatToString | media-src/src/features/findReplace/findReplaceHandler.ts:579 | decimal notation: at least one character, all of them digits |
| Text.NatToStringValue | media-src/src/features/findReplace/findReplaceHandler.ts:579 | decimal notation reads back as the number |

## Left out

- The regular-expression engine beyond the literal fragment: for a query in regex mode, the
  engine is a parameter that says whether the pattern compiles and how long its match is at a
  position. Capture groups, and with them the `$1` form of the replacement template, are not
  modelled: the template knows `$$`, `$&`, `` $` `` and `$'`.
- Letter case beyond ASCII: the `i` flag folds `a`-`z` onto `A`-`Z` only.
- UTF-16: offsets, lengths, `lastIndex` and columns count characters, where JavaScript counts
  UTF-16 code units. For `"😀a"` and the query `a` the browser reports index 2 and column 3,
  the model index 1 and column 2; and the browser's `lastIndex++` after an empty match can land
  between the two halves of a surrogate pair, which the model cannot express.
- Inherited keys: `Langs[l]` and `Langs[lang][key]` in JavaScript also find the properties of
  `Object.prototype` (a tag `constructor`, a key `toString`); the model's tables hold only the
  declared keys, so such a tag falls back to English and such a key to itself.
- Timers become steps. The 100 ms scroll after `highlightResults` and the 50 ms re-search of
  `replaceCurrent` and clear of `replaceAll` run at the end of the call that schedules them.
  The 300 ms find-input debounce is a separate `PerformFind`. The 5 s fallback of
  `updateCssFile` and the `onload` of the new link are one `RemoveReplacedLink` step. The
  300 ms resync after `scrollToHighlight` is a separate `Resync`. The panel's document-change
  debounce is the `DebounceFires` step. The 500 ms delay before image resizing is set up and
  the 100 ms delay before a new image's handlers are bound are the `SetupHandlers` step. The
  100 ms delay before the rewritten source is sent as an `edit` is collapsed into
  `UpdateMarkdownImageSize`, which sends it at once.
- The focus calls of `show` and `toggleReplace`, the `data-expanded` and `data-active`
  attributes of the widget's buttons, and the keyboard shortcuts that call `findNext`,
  `findPrevious`, `replaceAll` and `hide`: DOM wiring, with no state of the session.
- `initialize` of the find widget (panel markup, styles, event binding): static HTML and CSS.
  The handler starts in the state it leaves.
- Floating point. Client rectangles are integers from an oracle. The scroll offset is a
  `real`. The aspect-ratio and maximum-size arithmetic of the image drag is left out:
  `ImageResize.ImageResizer.MouseMove` takes the new size the drag computes as a parameter.
- The content element and scroll container that the overlay looks up are given by the page
  parameter, and so are the editor's rendered text nodes.
- The MutationObserver and the temporary container of image resizing, and `addGlobalStyles`:
  they set up styles and rebind handlers for new images. `AddImage` and `SetupHandlers` are
  the steps they trigger.
- `hideResizeHandles`, `hideAllResizeHandles` and the document click handler that calls it:
  the module's `activeImage` is never set to an image, so they never act. `selectImage` only
  logs.
- `debugImageResize`, `console` output and the host's `debug` logging. Error and information
  notices are kept, as a list of notices shown.
- The clipboard actions of the toolbar (`copyMarkdown`, `copyHtml`): they call the browser's
  clipboard and change no state of the model.
- The widget's construction (`initVditor`, the lodash `merge` of options): the editor is its
  content and its toolbar state. A construction that throws is assumed to throw before it
  replaces the previous editor.
- The order in which images finish loading: `UploadedInsertsInOrder` inserts each file's markup
  in list order, as if every image loaded before the next file is handled.
- Failures of `applyEdit`, `save`, `writeFile` and `createDirectory` other than the one the
  upload handler catches: every such call succeeds in the model.
- `null` and `undefined` settings other than unset: a setting is either absent or has a value
  of its type.
- The page the host generates is kept as its parts (`Render` puts them together), not as one
  HTML string.
- The choice of view column in `createOrShow`: the panel's column is not state the model keeps.
- The `Cannot find markdown file!` branch of `getDocument`: the check before it already
  returns when there is neither a URI nor an active editor, and opening a URI always gives a
  document, so the branch cannot be reached.
- Re-entrant disposal: `dispose` runs once; the disposables' own callbacks into `dispose` are
  not modelled.
- The file watchers of the stylesheets are kept in their own list and are not part of the
  disposables that `dispose` pops.
- `EditorPanel.LocalCssFiles`: its own contract only bounds the length of the list;
  `EditorPanel.LocalCssFilesExact` states which files it keeps.
- `MessageHandler.UploadTargets`: its contract only states one target per file; the path of
  each target is the path module's join of the folder and the file name, which is a parameter.
- `MessageHandler.UploadedPaths`: its contract only states one reply path per file;
  `MessageHandler.UploadOutcome` adds that no path holds a backslash. The paths themselves
  come from the path module's `relative`, which is a parameter.
- Other source files: the extension's activation and commands, the custom editor provider, the
  table editor, the find widget's markup, the link handler and the hover panel, the
  type declarations, and the refactored copy of the webview's entry point and editor setup.
