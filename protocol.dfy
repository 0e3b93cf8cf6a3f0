/**
 * The messages exchanged between the extension host and the webview, and the option
 * objects they carry.
 *
 * Option objects hold JSON values. Scalars and string lists are kept as they are; any other
 * value (a nested object, say) is kept only by identity, since nothing here looks inside it.
 */
module Protocol {
  import opened Wrappers

  datatype Value = Str(s: string) | Num(n: int) | Bool(b: bool) | Strs(items: seq<string>) | Other(id: nat)

  /** A JSON object: key to value. */
  type Options = map<string, Value>

  /** JavaScript truthiness: `""`, `0` and `false` are falsy; lists and objects are truthy. */
  predicate Truthy(v: Value) {
    match v
    case Str(s) => s != ""
    case Num(n) => n != 0
    case Bool(b) => b
    case _ => true
  }

  /** `{...a, ...b}`: every key of either, and the value of `b` where both have one. */
  function Spread(a: Options, b: Options): (r: Options)
    ensures r.Keys == a.Keys + b.Keys
    ensures forall k :: k in b ==> r[k] == b[k]
    ensures forall k :: k in a && k !in b ==> r[k] == a[k]
  {
    a + b
  }

  /** A file the webview uploads: its name and its content in base64. */
  datatype UploadFile = UploadFile(name: string, base64: string)

  /** A message from the webview to the host, by its `command`. */
  datatype ToHost =
    | Ready
    | SaveOptions(options: Options)
    | Info(content: string)
    | Error(content: string)
    | Edit(content: string)
    | ResetConfig
    | Save(content: string)
    | Upload(files: seq<UploadFile>)
    | OpenLink(href: string)
    | UpdateOutlineWidth(width: int)
    /** A command the host does not know. */
    | UnknownToHost(command: string)

  /**
   * A message from the host to the webview, by its `command`. The fields the webview checks
   * before use are optional: a message built elsewhere may lack them.
   */
  datatype ToWebview =
    /** `update`: `kind` is the message's `type`, `'init'` or `'update'`. */
    | Update(content: string, kind: string, options: Option<Options>, theme: Option<string>)
    | Uploaded(files: Option<seq<string>>)
    | ConfigUpdate(config: Option<Options>)
    | ReloadAllCss(cssConfig: Options)
    | OpenFindDialog(showReplace: bool)
    | UpdateCss(cssFile: string, fullPath: string, uri: string, timestamp: int)
    | CssFileDeleted(cssFile: string)
    | UnknownToWebview(command: string)
}
