/**
 * The extension's settings: how `getEditorConfig` fills in defaults with `||`, the option
 * object the webview receives, and which groups of settings a configuration change touches.
 *
 * `Stored` holds what `getConfiguration('markdown-editor').get(key)` returns, `None` standing
 * for `undefined`. A change event is its `affectsConfiguration` test.
 */
module Config {
  import opened Wrappers
  import opened Text
  import opened Protocol

  const VditorOptionsKey := "vditor.options"
  const ExternalCssFilesKey := "markdown-editor.externalCssFiles"
  const CustomCssKey := "markdown-editor.customCss"
  const CssLoadOrderKey := "markdown-editor.cssLoadOrder"
  const ImageSaveFolderKey := "markdown-editor.imageSaveFolder"
  const UseVscodeThemeColorKey := "markdown-editor.useVscodeThemeColor"
  const ShowOutlineByDefaultKey := "markdown-editor.showOutlineByDefault"
  const OutlinePositionKey := "markdown-editor.outlinePosition"
  const OutlineWidthKey := "markdown-editor.outlineWidth"
  const IsDefaultKey := "markdown-editor.isDefault"
  const ShowToolbarKey := "markdown-editor.showToolbar"

  datatype Stored = Stored(
    externalCssFiles: Option<seq<string>>,
    customCss: Option<string>,
    cssLoadOrder: Option<string>,
    imageSaveFolder: Option<string>,
    useVscodeThemeColor: Option<bool>,
    showOutlineByDefault: Option<bool>,
    outlinePosition: Option<string>,
    outlineWidth: Option<int>,
    isDefault: Option<bool>,
    showToolbar: Option<bool>)

  /** No setting stored. */
  const Unset := Stored(None, None, None, None, None, None, None, None, None, None)

  datatype EditorConfig = EditorConfig(
    externalCssFiles: seq<string>,
    customCss: string,
    cssLoadOrder: string,
    imageSaveFolder: string,
    useVscodeThemeColor: bool,
    showOutlineByDefault: bool,
    outlinePosition: string,
    outlineWidth: int,
    isDefault: bool,
    showToolbar: bool)

  /** `s || d` on a stored string: absent and empty give the default. */
  function StrOr(s: Option<string>, d: string): string {
    OrElse(s.GetOr(""), d)
  }

  /** `n || d` on a stored number: absent and 0 give the default. */
  function NumOr(n: Option<int>, d: int): int {
    if n.None? || n.value == 0 then d else n.value
  }

  /**
   * `getEditorConfig`: each `||`-read takes its default when the stored value is absent or
   * falsy (an array is never falsy), and `showToolbar`, read with a default argument, is true
   * only when nothing is stored.
   */
  function GetEditorConfig(s: Stored): (c: EditorConfig)
    ensures c.externalCssFiles == (if s.externalCssFiles.None? then [] else s.externalCssFiles.value)
    ensures s.customCss.None? || s.customCss == Some("") ==> c.customCss == ""
    ensures s.customCss.Some? ==> c.customCss == s.customCss.value
    ensures s.cssLoadOrder.None? || s.cssLoadOrder == Some("") ==> c.cssLoadOrder == "external-first"
    ensures s.cssLoadOrder.Some? && s.cssLoadOrder.value != "" ==> c.cssLoadOrder == s.cssLoadOrder.value
    ensures s.imageSaveFolder.None? || s.imageSaveFolder == Some("") ==> c.imageSaveFolder == "assets"
    ensures s.imageSaveFolder.Some? && s.imageSaveFolder.value != "" ==> c.imageSaveFolder == s.imageSaveFolder.value
    ensures c.useVscodeThemeColor <==> s.useVscodeThemeColor == Some(true)
    ensures c.showOutlineByDefault <==> s.showOutlineByDefault == Some(true)
    ensures s.outlinePosition.None? || s.outlinePosition == Some("") ==> c.outlinePosition == "left"
    ensures s.outlinePosition.Some? && s.outlinePosition.value != "" ==> c.outlinePosition == s.outlinePosition.value
    ensures s.outlineWidth.None? || s.outlineWidth == Some(0) ==> c.outlineWidth == 300
    ensures s.outlineWidth.Some? && s.outlineWidth.value != 0 ==> c.outlineWidth == s.outlineWidth.value
    ensures c.isDefault <==> s.isDefault == Some(true)
    ensures !c.showToolbar <==> s.showToolbar == Some(false)
  {
    EditorConfig(
      s.externalCssFiles.GetOr([]),
      StrOr(s.customCss, ""),
      StrOr(s.cssLoadOrder, "external-first"),
      StrOr(s.imageSaveFolder, "assets"),
      s.useVscodeThemeColor.GetOr(false),
      s.showOutlineByDefault.GetOr(false),
      StrOr(s.outlinePosition, "left"),
      NumOr(s.outlineWidth, 300),
      s.isDefault.GetOr(false),
      s.showToolbar.GetOr(true))
  }

  /** The settings that store every field of `c`. */
  function Store(c: EditorConfig): Stored {
    Stored(Some(c.externalCssFiles), Some(c.customCss), Some(c.cssLoadOrder), Some(c.imageSaveFolder),
           Some(c.useVscodeThemeColor), Some(c.showOutlineByDefault), Some(c.outlinePosition),
           Some(c.outlineWidth), Some(c.isDefault), Some(c.showToolbar))
  }

  /** The configuration read when nothing is stored. */
  lemma UnsetDefaults()
    ensures GetEditorConfig(Unset)
      == EditorConfig([], "", "external-first", "assets", false, false, "left", 300, false, true)
  {
  }

  /**
   * Defaulting is idempotent: storing the configuration that was read and reading it again
   * gives the same configuration, since no default is itself falsy where falsy matters.
   */
  lemma GetEditorConfigIdempotent(s: Stored)
    ensures GetEditorConfig(Store(GetEditorConfig(s))) == GetEditorConfig(s)
  {
  }

  /**
   * `updateConfig('outlineWidth', w)`: only the outline width changes, and a non-zero stored
   * width is what the next read yields.
   */
  function UpdateOutlineWidth(s: Stored, width: int): (r: Stored)
    ensures r.outlineWidth == Some(width)
    ensures r == s.(outlineWidth := Some(width))
    ensures width != 0 ==> GetEditorConfig(r).outlineWidth == width
    ensures width == 0 ==> GetEditorConfig(r).outlineWidth == 300
  {
    s.(outlineWidth := Some(width))
  }

  /** The configuration as the option object `{...config}` spreads it. */
  function ToOptions(c: EditorConfig): (o: Options)
    ensures o.Keys == {"externalCssFiles", "customCss", "cssLoadOrder", "imageSaveFolder",
                       "useVscodeThemeColor", "showOutlineByDefault", "outlinePosition",
                       "outlineWidth", "isDefault", "showToolbar"}
    ensures o["externalCssFiles"] == Strs(c.externalCssFiles) && o["customCss"] == Str(c.customCss)
    ensures o["cssLoadOrder"] == Str(c.cssLoadOrder) && o["imageSaveFolder"] == Str(c.imageSaveFolder)
    ensures o["useVscodeThemeColor"] == Bool(c.useVscodeThemeColor)
    ensures o["showOutlineByDefault"] == Bool(c.showOutlineByDefault)
    ensures o["outlinePosition"] == Str(c.outlinePosition) && o["isDefault"] == Bool(c.isDefault)
    ensures o["outlineWidth"] == Num(c.outlineWidth) && o["showToolbar"] == Bool(c.showToolbar)
  {
    map["externalCssFiles" := Strs(c.externalCssFiles),
        "customCss" := Str(c.customCss),
        "cssLoadOrder" := Str(c.cssLoadOrder),
        "imageSaveFolder" := Str(c.imageSaveFolder),
        "useVscodeThemeColor" := Bool(c.useVscodeThemeColor),
        "showOutlineByDefault" := Bool(c.showOutlineByDefault),
        "outlinePosition" := Str(c.outlinePosition),
        "outlineWidth" := Num(c.outlineWidth),
        "isDefault" := Bool(c.isDefault),
        "showToolbar" := Bool(c.showToolbar)]
  }

  /** `e.affectsConfiguration(key)`. */
  type ChangeEvent = string -> bool

  const CssKeys: set<string> := {ExternalCssFilesKey, CustomCssKey, CssLoadOrderKey}
  const OutlineKeys: set<string> := {ShowOutlineByDefaultKey, OutlinePositionKey, OutlineWidthKey, UseVscodeThemeColorKey}
  const ToolbarKeys: set<string> := {ShowToolbarKey}

  /** `isCssConfigChanged`. */
  predicate IsCssConfigChanged(e: ChangeEvent) {
    e(ExternalCssFilesKey) || e(CustomCssKey) || e(CssLoadOrderKey)
  }

  /** `isOutlineConfigChanged`. */
  predicate IsOutlineConfigChanged(e: ChangeEvent) {
    e(ShowOutlineByDefaultKey) || e(OutlinePositionKey) || e(OutlineWidthKey) || e(UseVscodeThemeColorKey)
  }

  /** `isToolbarConfigChanged`. */
  predicate IsToolbarConfigChanged(e: ChangeEvent) {
    e(ShowToolbarKey)
  }

  /** Each test holds exactly when the event affects one of the keys of its group. */
  lemma ChangeGroups(e: ChangeEvent)
    ensures IsCssConfigChanged(e) <==> exists k :: k in CssKeys && e(k)
    ensures IsOutlineConfigChanged(e) <==> exists k :: k in OutlineKeys && e(k)
    ensures IsToolbarConfigChanged(e) <==> exists k :: k in ToolbarKeys && e(k)
  {
  }

  /**
   * A change of one setting triggers exactly the group that setting belongs to, and
   * the groups do not share a key.
   */
  lemma SingleSettingChange(key: string)
    ensures IsCssConfigChanged(k => k == key) <==> key in CssKeys
    ensures IsOutlineConfigChanged(k => k == key) <==> key in OutlineKeys
    ensures IsToolbarConfigChanged(k => k == key) <==> key in ToolbarKeys
    ensures CssKeys !! OutlineKeys && CssKeys !! ToolbarKeys && OutlineKeys !! ToolbarKeys
  {
  }
}
