/**
 * The webview toolbar: its item list as declared, the normalisation that turns every
 * top-level item into an object with a tip position (`'s'` unless the item names one), and
 * the messages the save and reset buttons send.
 */
module Toolbar {
  import opened Wrappers
  import opened Protocol

  /**
   * A declared item: a bare name, or an object with a name, maybe a tip position and maybe
   * a sub-menu of further declared items.
   */
  datatype RawItem =
    | Plain(name: string)
    | Object(name: string, tipPosition: Option<string>, submenu: seq<RawItem>)

  /** A top-level item after normalisation; the sub-menu is left as declared. */
  datatype Item = Item(name: string, tipPosition: string, submenu: seq<RawItem>)

  /** The items of the `more` menu. */
  const MoreMenu: seq<RawItem> := [
    Plain("both"), Plain("code-theme"), Plain("content-theme"), Plain("outline"), Plain("preview"),
    Object("copy-markdown", None, []), Object("copy-html", None, []), Object("reset-config", None, []),
    Plain("devtools"), Plain("info"), Plain("help")]

  /** The declared toolbar, in order. */
  const Declared: seq<RawItem> := [
    Object("save", Some("s"), []),
    Plain("emoji"), Plain("headings"), Plain("bold"), Plain("italic"), Plain("strike"), Plain("link"),
    Plain("|"),
    Plain("list"), Plain("ordered-list"), Plain("check"), Plain("outdent"), Plain("indent"),
    Plain("|"),
    Plain("quote"), Plain("line"), Plain("code"), Plain("inline-code"), Plain("insert-before"), Plain("insert-after"),
    Plain("|"),
    Plain("upload"), Plain("table"),
    Plain("|"),
    Plain("undo"), Plain("redo"),
    Plain("|"),
    Object("edit-mode", Some("e"), []),
    Object("more", Some("e"), MoreMenu)]

  /**
   * One step of the `.map`: a string becomes `{name}`, and `tipPosition` becomes
   * `tipPosition || 's'`.
   */
  function Normalize(item: RawItem): (r: Item)
    ensures r.name == item.name
    ensures item.Plain? ==> r.tipPosition == "s" && r.submenu == []
    ensures item.Object? && item.tipPosition.Some? && item.tipPosition.value != "" ==> r.tipPosition == item.tipPosition.value
    ensures item.Object? && (item.tipPosition.None? || item.tipPosition == Some("")) ==> r.tipPosition == "s"
    ensures item.Object? ==> r.submenu == item.submenu
  {
    match item
    case Plain(name) => Item(name, "s", [])
    case Object(name, tip, submenu) =>
      Item(name, if tip.None? || tip.value == "" then "s" else tip.value, submenu)
  }

  function NormalizeAll(items: seq<RawItem>): (r: seq<Item>)
    ensures |r| == |items|
    ensures forall k :: 0 <= k < |items| ==> r[k] == Normalize(items[k])
  {
    if items == [] then [] else [Normalize(items[0])] + NormalizeAll(items[1..])
  }

  /** The toolbar handed to the editor. */
  function ToolbarItems(): (r: seq<Item>)
    ensures |r| == |Declared|
  {
    NormalizeAll(Declared)
  }

  /**
   * Normalisation keeps the count, the order and the names; every item gets a non-empty tip
   * position; declared positions survive, and sub-menus are passed on untouched.
   */
  lemma NormalizePreserves(items: seq<RawItem>)
    ensures |NormalizeAll(items)| == |items|
    ensures forall k :: 0 <= k < |items| ==> NormalizeAll(items)[k].name == items[k].name && NormalizeAll(items)[k].tipPosition != ""
    ensures forall k :: 0 <= k < |items| && items[k].Object? ==> NormalizeAll(items)[k].submenu == items[k].submenu
    ensures forall k :: 0 <= k < |items| && items[k].Object? && items[k].tipPosition.Some? && items[k].tipPosition.value != "" ==>
              NormalizeAll(items)[k].tipPosition == items[k].tipPosition.value
  {
  }

  /** Normalising an already normalised list changes nothing. */
  lemma NormalizeIdempotent(items: seq<RawItem>)
    ensures NormalizeAll(Renormalizable(NormalizeAll(items))) == NormalizeAll(items)
  {
    var n := NormalizeAll(items);
    var r := Renormalizable(n);
    assert forall k :: 0 <= k < |n| ==> Normalize(r[k]) == n[k];
  }

  /** A normalised item read back as a declared object. */
  function Renormalizable(items: seq<Item>): (r: seq<RawItem>)
    ensures |r| == |items|
    ensures forall k :: 0 <= k < |items| ==> r[k] == Object(items[k].name, Some(items[k].tipPosition), items[k].submenu)
  {
    if items == [] then [] else [Object(items[0].name, Some(items[0].tipPosition), items[0].submenu)] + Renormalizable(items[1..])
  }

  /** The declared toolbar: 29 items; `save` keeps `'s'`, `edit-mode` and `more` keep `'e'`. */
  lemma DeclaredToolbar()
    ensures |ToolbarItems()| == 29
    ensures ToolbarItems()[0] == Item("save", "s", [])
    ensures ToolbarItems()[1] == Item("emoji", "s", [])
    ensures ToolbarItems()[27] == Item("edit-mode", "e", [])
    ensures ToolbarItems()[28] == Item("more", "e", MoreMenu)
    ensures MoreMenu[5].Object? && MoreMenu[5].tipPosition.None?
  {
    NormalizePreserves(Declared);
  }

  /** The reset button: after confirmation, reset, ask for the state again, report success. */
  function ResetEditorConfigMessages(confirmed: bool): (ms: seq<ToHost>)
    ensures !confirmed ==> ms == []
    ensures confirmed ==> ms == [ResetConfig, Ready, Info("Reset config successfully!")]
  {
    if confirmed then [ResetConfig, Ready, Info("Reset config successfully!")] else []
  }

  /** The save button: one `save` with the editor's current content. */
  function SaveDocumentMessages(content: string): (ms: seq<ToHost>)
    ensures ms == [Save(content)]
  {
    [Save(content)]
  }
}
