/**
 * Resizing images in the editor by dragging their edges: the 10-pixel edge test, the
 * eight-way direction classifier (corners first), the cursor for each direction, the
 * per-image flags, the resizing / not-resizing state of a drag, and the rewrite of the
 * markdown source with an `<img>` tag of the new size when the drag ends.
 *
 * Mouse positions are relative to the image's bounding box and, like its size, are integers.
 * The size a drag gives (aspect ratio, minimum and container clamping) is a parameter of the
 * mouse-move step, already rounded. Images are identified by their position in the list of
 * images the page holds.
 */
module ImageResize {
  import opened Wrappers
  import opened Text
  import opened RegexLiteral
  import opened LiteralMatch

  /** The width in pixels of the band along each side of an image where a drag can start. */
  const EdgeSize := 10

  predicate InLeft(x: int) { x <= EdgeSize }
  predicate InRight(x: int, width: int) { x >= width - EdgeSize }
  predicate InTop(y: int) { y <= EdgeSize }
  predicate InBottom(y: int, height: int) { y >= height - EdgeSize }

  /** The edge test of the image mouse-move handler. */
  predicate IsOnEdge(x: int, y: int, width: int, height: int) {
    x <= EdgeSize || y <= EdgeSize || x >= width - EdgeSize || y >= height - EdgeSize
  }

  datatype Direction = NW | NE | SW | SE | N | S | E | W

  /** The direction string the handlers pass around. */
  function DirectionName(d: Direction): string {
    match d
    case NW => "nw" case NE => "ne" case SW => "sw" case SE => "se"
    case N => "n" case S => "s" case E => "e" case W => "w"
  }

  /** `getResizeDirection`: the four corners first, then the four sides; none off the edges. */
  function GetResizeDirection(x: int, y: int, width: int, height: int): (r: Option<Direction>)
    ensures r.Some? <==> IsOnEdge(x, y, width, height)
  {
    if x <= EdgeSize && y <= EdgeSize then Some(NW)
    else if x >= width - EdgeSize && y <= EdgeSize then Some(NE)
    else if x <= EdgeSize && y >= height - EdgeSize then Some(SW)
    else if x >= width - EdgeSize && y >= height - EdgeSize then Some(SE)
    else if x <= EdgeSize then Some(W)
    else if x >= width - EdgeSize then Some(E)
    else if y <= EdgeSize then Some(N)
    else if y >= height - EdgeSize then Some(S)
    else None
  }

  /**
   * Each direction in terms of the four bands: a corner wherever two bands meet, with the
   * left and top bands winning over the right and bottom ones on a small image, and a side
   * only away from the other bands.
   */
  lemma DirectionBands(x: int, y: int, width: int, height: int)
    ensures var d := GetResizeDirection(x, y, width, height);
            var l, r, t, b := InLeft(x), InRight(x, width), InTop(y), InBottom(y, height);
            (d == Some(NW) <==> l && t)
            && (d == Some(NE) <==> r && t && !l)
            && (d == Some(SW) <==> l && b && !t)
            && (d == Some(SE) <==> r && b && !l && !t)
            && (d == Some(W) <==> l && !t && !b)
            && (d == Some(E) <==> r && !l && !t && !b)
            && (d == Some(N) <==> t && !l && !r)
            && (d == Some(S) <==> b && !l && !r && !t)
  {
  }

  /** `getResizeCursor`: one cursor for each pair of opposite directions, `default` otherwise. */
  function GetResizeCursor(direction: string): (r: string)
    ensures r == "default" <==> direction !in {"nw", "se", "ne", "sw", "n", "s", "e", "w"}
  {
    if direction == "nw" || direction == "se" then "nw-resize"
    else if direction == "ne" || direction == "sw" then "ne-resize"
    else if direction == "n" || direction == "s" then "n-resize"
    else if direction == "e" || direction == "w" then "e-resize"
    else "default"
  }

  /** The cursor `startResize` picks with its own switch: `nw-resize` when no case applies. */
  function StartCursor(direction: string): (r: string)
    ensures GetResizeCursor(direction) != "default" ==> r == GetResizeCursor(direction)
    ensures GetResizeCursor(direction) == "default" ==> r == "nw-resize"
  {
    if direction == "nw" || direction == "se" then "nw-resize"
    else if direction == "ne" || direction == "sw" then "ne-resize"
    else if direction == "n" || direction == "s" then "n-resize"
    else if direction == "e" || direction == "w" then "e-resize"
    else "nw-resize"
  }

  /**
   * Opposite directions share a cursor, no direction gets `default`, and the two switches
   * agree on every direction; they differ only on strings that name none.
   */
  lemma CursorsAgree(d: Direction, s: string)
    ensures GetResizeCursor(DirectionName(d)) == StartCursor(DirectionName(d)) != "default"
    ensures GetResizeCursor("nw") == GetResizeCursor("se") && GetResizeCursor("ne") == GetResizeCursor("sw")
    ensures GetResizeCursor("n") == GetResizeCursor("s") && GetResizeCursor("e") == GetResizeCursor("w")
    ensures (forall d' :: s != DirectionName(d')) ==> GetResizeCursor(s) == "default" && StartCursor(s) == "nw-resize"
  {
    if forall d' :: s != DirectionName(d') {
      assert s != DirectionName(NW) && s != DirectionName(SE) && s != DirectionName(NE) && s != DirectionName(SW);
      assert s != DirectionName(N) && s != DirectionName(S) && s != DirectionName(E) && s != DirectionName(W);
    }
  }

  /** The outline an image gets while the mouse is on its edge. */
  const EdgeOutline := "1px solid rgba(74, 144, 226, 0.5)"

  /**
   * An image element as the resize feature sees it: its attributes, its `data-resize-enabled`
   * and `data-on-edge` flags (`""` when unset), the listener sets bound to it, and the inline
   * styles it touches (`None` for a width or height the style does not hold as a number).
   */
  datatype Image = Image(
    src: Option<string>, alt: Option<string>,
    resizeEnabled: bool, bindings: nat, onEdge: string,
    cursor: string, outline: string, pointerEvents: string,
    styleWidth: Option<int>, styleHeight: Option<int>,
    widthAttr: Option<string>, heightAttr: Option<string>)

  /** `handleImageMouseMove`: the edge cursor and outline on the edge, plain styles elsewhere. */
  function PointerMoved(img: Image, x: int, y: int, width: int, height: int): (r: Image)
    ensures r == img.(cursor := r.cursor, onEdge := r.onEdge, outline := r.outline)
  {
    if IsOnEdge(x, y, width, height) then
      match GetResizeDirection(x, y, width, height)
      case Some(d) => img.(cursor := GetResizeCursor(DirectionName(d)), onEdge := "true", outline := EdgeOutline)
      case None => img
    else img.(cursor := "", outline := "", onEdge := "false")
  }

  /** The edge flag ends up `true` exactly on the edge, with the direction's cursor. */
  lemma PointerMovedMarksEdge(img: Image, x: int, y: int, width: int, height: int)
    ensures PointerMoved(img, x, y, width, height).onEdge == "true" <==> IsOnEdge(x, y, width, height)
    ensures IsOnEdge(x, y, width, height) ==>
              PointerMoved(img, x, y, width, height).cursor
              == GetResizeCursor(DirectionName(GetResizeDirection(x, y, width, height).value))
    ensures !IsOnEdge(x, y, width, height) ==> PointerMoved(img, x, y, width, height).cursor == ""
  {
  }

  /** The markup and size text of the rewritten image: `Math.round` of a number or `NaN`. */
  function SizeText(size: Option<int>): (r: string)
    ensures '$' !in r && '"' !in r
  {
    match size
    case Some(n) =>
      var d := NatToString(if n < 0 then -n else n);
      assert forall k :: 0 <= k < |d| ==> d[k] != '$' && d[k] != '"';
      assert IntToString(n) == if n < 0 then "-" + d else d;
      IntToString(n)
    case None => "NaN"
  }

  /** The replacement tag `<img src="S" alt="A" width="W" height="H">`. */
  function ImgTag(src: string, alt: string, width: Option<int>, height: Option<int>): (r: string)
    ensures '$' !in src && '$' !in alt ==> '$' !in r
  {
    "<img src=\"" + src + "\" alt=\"" + alt + "\" width=\"" + SizeText(width) + "\" height=\"" + SizeText(height) + "\">"
  }

  /** The pattern for an HTML image tag with this source. */
  function HtmlImgPattern(src: string): string {
    "<img[^>]*src=[\"']?" + EscapeRegExp(src) + "[\"']?[^>]*>"
  }

  /** The pattern for markdown image syntax with this text and source. */
  function MarkdownImgPattern(alt: string, src: string): string {
    "!\\[" + EscapeRegExp(alt) + "\\]\\(" + EscapeRegExp(src) + "\\)"
  }

  /** The pattern for an HTML image tag whose source contains this file name. */
  function LooseImgPattern(src: string): string {
    "<img[^>]*src=[\"']?[^\"']*" + EscapeRegExp(OrElse(LastSegment(src, {'/'}), "")) + "[^\"']*[\"']?[^>]*>"
  }

  /** Markdown image syntax as written in the source. */
  function MarkdownImage(alt: string, src: string): string {
    "![" + alt + "](" + src + ")"
  }

  /** The markdown pattern is the escaped markdown image, so it denotes exactly `![alt](src)`. */
  lemma MarkdownPatternIsLiteral(alt: string, src: string)
    ensures MarkdownImgPattern(alt, src) == EscapeRegExp(MarkdownImage(alt, src))
    ensures ParseAtoms(MarkdownImgPattern(alt, src)) == Some(Lits(MarkdownImage(alt, src)))
  {
    var open, mid, close := "![", "](", ")";
    assert EscapeRegExp(open) == "!\\[" by {
      assert open[1..] == "[" && "["[1..] == [];
    }
    assert EscapeRegExp(mid) == "\\]\\(" by {
      assert mid[1..] == "(" && "("[1..] == [];
    }
    assert EscapeRegExp(close) == "\\)" by {
      assert close[1..] == [];
    }
    EscapeAppend(open, alt);
    EscapeAppend(open + alt, mid);
    EscapeAppend(open + alt + mid, src);
    EscapeAppend(open + alt + mid + src, close);
    assert MarkdownImage(alt, src) == open + alt + mid + src + close;
    EscapeRoundTrip(MarkdownImage(alt, src));
  }

  /**
   * The rewritten source, or `None` when constructing one of the patterns throws: every HTML
   * tag with this source if there is one, else every markdown image with this text and source,
   * else every HTML tag whose source contains the file name, else the source as it was.
   */
  function UpdatedContent(content: string, src: string, alt: string, width: Option<int>, height: Option<int>,
                          engine: RegexEngine): (r: Option<string>)
    ensures (Compile(NewRegExp(HtmlImgPattern(src), "g"), engine).None?
             || Compile(NewRegExp(MarkdownImgPattern(alt, src), "g"), engine).None?) ==> r.None?
    ensures r.None? ==> Compile(NewRegExp(HtmlImgPattern(src), "g"), engine).None?
                        || Compile(NewRegExp(MarkdownImgPattern(alt, src), "g"), engine).None?
                        || Compile(NewRegExp(LooseImgPattern(src), "g"), engine).None?
  {
    var tag := ImgTag(src, alt, width, height);
    var html := Compile(NewRegExp(HtmlImgPattern(src), "g"), engine);
    var md := Compile(NewRegExp(MarkdownImgPattern(alt, src), "g"), engine);
    if html.None? || md.None? then None
    else if FirstMatchFrom(html.value, content, 0).Some? then Some(JsReplaceAll(html.value, content, tag))
    else if FirstMatchFrom(md.value, content, 0).Some? then Some(JsReplaceAll(md.value, content, tag))
    else
      match Compile(NewRegExp(LooseImgPattern(src), "g"), engine)
      case None => None
      case Some(loose) =>
        if FirstMatchFrom(loose, content, 0).Some? then Some(JsReplaceAll(loose, content, tag)) else Some(content)
  }

  /**
   * When no HTML tag matches, markdown images are what gets rewritten: the markdown pattern
   * compiles without the engine and matches exactly at the occurrences of `![alt](src)`.
   */
  lemma MarkdownStep(alt: string, src: string, engine: RegexEngine, content: string, p: nat)
    requires p <= |content|
    ensures Compile(NewRegExp(MarkdownImgPattern(alt, src), "g"), engine)
            == Some(Literal(Lits(MarkdownImage(alt, src)), false))
    ensures MatchAt(Literal(Lits(MarkdownImage(alt, src)), false), content, p)
            == if OccursAt(content, MarkdownImage(alt, src), p) then Some(|MarkdownImage(alt, src)|) else None
  {
    MarkdownPatternIsLiteral(alt, src);
    assert 'i' !in "g";
    LitsMatch(MarkdownImage(alt, src), false, content, p);
    FoldOccursExact(content, MarkdownImage(alt, src), p);
  }

  /**
   * With the HTML pattern finding nothing, a source holding `![alt](src)` is rewritten by
   * putting the tag at every occurrence the scan finds (a tag without `$`).
   */
  lemma MarkdownImageRewritten(content: string, src: string, alt: string, width: Option<int>, height: Option<int>,
                               engine: RegexEngine, html: Matcher, p: nat)
    requires Compile(NewRegExp(HtmlImgPattern(src), "g"), engine) == Some(html)
    requires FirstMatchFrom(html, content, 0).None?
    requires OccursAt(content, MarkdownImage(alt, src), p)
    requires '$' !in ImgTag(src, alt, width, height)
    ensures var md := Literal(Lits(MarkdownImage(alt, src)), false);
            Ordered(content, ScanFrom(md, content, 0), 0)
            && UpdatedContent(content, src, alt, width, height, engine)
               == Some(SpliceAll(content, ScanFrom(md, content, 0), ImgTag(src, alt, width, height)))
  {
    var md := Literal(Lits(MarkdownImage(alt, src)), false);
    MarkdownStep(alt, src, engine, content, p);
    FirstMatchFromSpec(md, content, 0);
    assert FirstMatchFrom(md, content, 0).Some?;
    ReplaceAllIsSplices(md, content, ImgTag(src, alt, width, height));
  }

  /** Splicing over the whole text leaves just the inserted text. */
  lemma SpliceWhole(c: string, text: string)
    ensures SpliceAt(c, Found(0, |c|), text) == text
  {
    assert c[..0] == [] && c[|c|..] == [];
  }

  /**
   * A source that is exactly one markdown image, with no HTML tag matching, becomes exactly
   * the new tag; a release without a drag before it (no inline size) writes `NaN` sizes.
   */
  lemma SingleMarkdownImageRewritten(src: string, alt: string, width: Option<int>, height: Option<int>,
                                     engine: RegexEngine, html: Matcher)
    requires Compile(NewRegExp(HtmlImgPattern(src), "g"), engine) == Some(html)
    requires FirstMatchFrom(html, MarkdownImage(alt, src), 0).None?
    requires '$' !in ImgTag(src, alt, width, height)
    ensures UpdatedContent(MarkdownImage(alt, src), src, alt, width, height, engine)
            == Some(ImgTag(src, alt, width, height))
    ensures width.None? ==> SizeText(width) == "NaN"
  {
    var content := MarkdownImage(alt, src);
    var tag := ImgTag(src, alt, width, height);
    var n := |content|;
    var md := Literal(Lits(content), false);
    MarkdownStep(alt, src, engine, content, 0);
    assert OccursAt(content, content, 0);
    assert FirstMatchFrom(md, content, 0) == Some(Found(0, n));
    assert UpdatedContent(content, src, alt, width, height, engine) == Some(JsReplaceAll(md, content, tag));
    MarkdownStep(alt, src, engine, content, n);
    assert FirstMatchFrom(md, content, n).None?;
    assert ScanFrom(md, content, 0) == [Found(0, n)];
    ReplaceAllIsSplices(md, content, tag);
    assert SpliceAll(content, [Found(0, n)], tag) == SpliceAt(content, Found(0, n), tag);
    SpliceWhole(content, tag);
    assert JsReplaceAll(md, content, tag) == tag;
  }

  /** The state of a drag in progress: where it started, the image and its direction. */
  datatype ResizeState = ResizeState(startX: int, startY: int, startWidth: int, startHeight: int,
                                     direction: Direction, image: nat)

  class ImageResizer {
    /** The images of the editor, in document order. */
    var images: seq<Image>
    /** `resizeState`: `Some` exactly while a drag is in progress. */
    var resizeState: Option<ResizeState>
    /** Whether the document's mouse-move and mouse-up listeners are attached. */
    var listening: bool
    /** Whether the body carries the `image-resizing` class, and its cursor style. */
    var bodyResizing: bool
    var bodyCursor: string
    /** The editor widget's markdown source, when there is a widget. */
    var editor: Option<string>
    /** The contents of the `edit` messages posted to the extension, in order. */
    var edits: seq<string>
    const engine: RegexEngine

    ghost predicate Valid()
      reads this
    {
      (resizeState.Some? ==> resizeState.value.image < |images|)
      && (bodyResizing <==> resizeState.Some?)
      && (forall k :: 0 <= k < |images| ==> images[k].resizeEnabled ==> images[k].bindings >= 1)
    }

    /** `initImageResize` before its delayed setup: the document listeners are attached. */
    constructor (images: seq<Image>, editor: Option<string>, engine: RegexEngine)
      requires forall k :: 0 <= k < |images| ==> images[k].resizeEnabled ==> images[k].bindings >= 1
      ensures Valid()
      ensures this.images == images && resizeState.None? && listening && !bodyResizing && bodyCursor == ""
      ensures this.editor == editor && edits == [] && this.engine == engine
    {
      this.images := images;
      resizeState := None;
      listening := true;
      bodyResizing := false;
      bodyCursor := "";
      this.editor := editor;
      edits := [];
      this.engine := engine;
    }

    /** A new image appears in the editor, with no flags and no listeners. */
    method AddImage(src: Option<string>, alt: Option<string>)
      requires Valid()
      modifies this
      ensures Valid()
      ensures images == old(images) + [Image(src, alt, false, 0, "", "", "", "", None, None, None, None)]
      ensures resizeState == old(resizeState) && listening == old(listening) && editor == old(editor) && edits == old(edits)
    {
      images := images + [Image(src, alt, false, 0, "", "", "", "", None, None, None, None)];
    }

    /**
     * `setupImageResizeHandlers`: every image not yet flagged gets the flag and one set of
     * listeners; a flagged image is left alone.
     */
    method SetupHandlers()
      requires Valid()
      modifies this
      ensures Valid()
      ensures |images| == |old(images)|
      ensures forall k :: 0 <= k < |images| ==>
                images[k] == if old(images)[k].resizeEnabled then old(images)[k]
                             else old(images)[k].(resizeEnabled := true, bindings := old(images)[k].bindings + 1)
      ensures resizeState == old(resizeState) && listening == old(listening) && editor == old(editor) && edits == old(edits)
    {
      var imgs := images;
      var k := 0;
      while k < |imgs|
        invariant 0 <= k <= |imgs| == |images|
        invariant forall j :: 0 <= j < k ==>
                    imgs[j] == if images[j].resizeEnabled then images[j]
                               else images[j].(resizeEnabled := true, bindings := images[j].bindings + 1)
        invariant forall j :: k <= j < |imgs| ==> imgs[j] == images[j]
      {
        if !imgs[k].resizeEnabled {
          imgs := imgs[k := imgs[k].(resizeEnabled := true, bindings := imgs[k].bindings + 1)];
        }
        k := k + 1;
      }
      images := imgs;
    }

    /**
     * The mouse moves over image `i`, at `(x, y)` in a box of `width` by `height`. An image
     * that no setup has bound listeners to ignores the event.
     */
    method ImageMouseMove(i: nat, x: int, y: int, width: int, height: int)
      requires Valid() && i < |images|
      modifies this
      ensures Valid()
      ensures old(images)[i].bindings >= 1 ==> images == old(images)[i := PointerMoved(old(images)[i], x, y, width, height)]
      ensures old(images)[i].bindings == 0 ==> images == old(images)
      ensures resizeState == old(resizeState) && bodyCursor == old(bodyCursor) && editor == old(editor) && edits == old(edits)
    {
      if images[i].bindings == 0 {
        return;
      }
      var img := images[i];
      if IsOnEdge(x, y, width, height) {
        var direction := GetResizeDirection(x, y, width, height);
        if direction.Some? {
          var cursor := GetResizeCursor(DirectionName(direction.value));
          img := img.(cursor := cursor, onEdge := "true", outline := EdgeOutline);
        }
      } else {
        img := img.(cursor := "", outline := "", onEdge := "false");
      }
      images := images[i := img];
    }

    /** The mouse leaves image `i`: plain cursor and the edge flag off, when it has listeners. */
    method ImageMouseLeave(i: nat)
      requires Valid() && i < |images|
      modifies this
      ensures Valid()
      ensures old(images)[i].bindings >= 1 ==> images == old(images)[i := old(images)[i].(cursor := "", onEdge := "false")]
      ensures old(images)[i].bindings == 0 ==> images == old(images)
      ensures resizeState == old(resizeState) && bodyCursor == old(bodyCursor) && editor == old(editor) && edits == old(edits)
    {
      if images[i].bindings >= 1 {
        images := images[i := images[i].(cursor := "", onEdge := "false")];
      }
    }

    /**
     * A mouse-down on image `i`: a drag starts only when the image has listeners, its edge
     * flag is `true` and the mouse is in a direction band.
     */
    method ImageMouseDown(i: nat, x: int, y: int, width: int, height: int, clientX: int, clientY: int)
      requires Valid() && i < |images|
      modifies this
      ensures Valid()
      ensures editor == old(editor) && edits == old(edits) && listening == old(listening)
      ensures old(images)[i].bindings >= 1 && old(images)[i].onEdge == "true"
              && GetResizeDirection(x, y, width, height).Some? ==>
                var d := GetResizeDirection(x, y, width, height).value;
                var cursor := StartCursor(DirectionName(d)) + " !important";
                resizeState == Some(ResizeState(clientX, clientY, width, height, d, i))
                && bodyCursor == cursor
                && images == old(images)[i := old(images)[i].(cursor := cursor, pointerEvents := "none")]
      ensures !(old(images)[i].bindings >= 1 && old(images)[i].onEdge == "true"
                && GetResizeDirection(x, y, width, height).Some?) ==>
                resizeState == old(resizeState) && bodyResizing == old(bodyResizing)
                && bodyCursor == old(bodyCursor) && images == old(images)
    {
      if images[i].bindings >= 1 && images[i].onEdge == "true" {
        var direction := GetResizeDirection(x, y, width, height);
        if direction.Some? {
          StartResize(i, direction.value, clientX, clientY, width, height);
        }
      }
    }

    /** `startResize`: records the drag and sets the resizing styles. */
    method StartResize(i: nat, d: Direction, clientX: int, clientY: int, width: int, height: int)
      requires Valid() && i < |images|
      modifies this
      ensures Valid()
      ensures resizeState == Some(ResizeState(clientX, clientY, width, height, d, i)) && bodyResizing
      ensures bodyCursor == StartCursor(DirectionName(d)) + " !important"
      ensures images == old(images)[i := old(images)[i].(cursor := StartCursor(DirectionName(d)) + " !important",
                                                         pointerEvents := "none")]
      ensures editor == old(editor) && edits == old(edits) && listening == old(listening)
    {
      var cursor := StartCursor(DirectionName(d));
      resizeState := Some(ResizeState(clientX, clientY, width, height, d, i));
      bodyResizing := true;
      bodyCursor := cursor + " !important";
      images := images[i := images[i].(cursor := cursor + " !important", pointerEvents := "none")];
    }

    /**
     * `handleMouseMove`: during a drag, the image takes the size the drag arithmetic gives;
     * otherwise nothing happens.
     */
    method MouseMove(newWidth: int, newHeight: int)
      requires Valid()
      modifies this
      ensures Valid()
      ensures resizeState == old(resizeState) && bodyResizing == old(bodyResizing) && bodyCursor == old(bodyCursor)
      ensures editor == old(editor) && edits == old(edits) && listening == old(listening)
      ensures !(listening && resizeState.Some?) ==> images == old(images)
      ensures listening && resizeState.Some? ==>
                var i := resizeState.value.image;
                images == old(images)[i := old(images)[i].(styleWidth := Some(newWidth), styleHeight := Some(newHeight))]
    {
      if !listening || resizeState.None? {
        return;
      }
      var i := resizeState.value.image;
      images := images[i := images[i].(styleWidth := Some(newWidth), styleHeight := Some(newHeight))];
    }

    /**
     * `handleMouseUp`: ends a drag — the image gets `width`/`height` attributes from its
     * inline size, the drag state and styles are reset, the edge flag goes to `false`, and the
     * markdown source is rewritten. Outside a drag nothing happens. Returns whether rewriting
     * threw.
     */
    method MouseUp() returns (threw: bool)
      requires Valid()
      modifies this
      ensures Valid() && listening == old(listening)
      ensures !(old(listening) && old(resizeState).Some?) ==>
                images == old(images) && resizeState == old(resizeState) && bodyResizing == old(bodyResizing)
                && bodyCursor == old(bodyCursor) && editor == old(editor) && edits == old(edits) && !threw
      ensures old(listening) && old(resizeState).Some? ==>
                var i := old(resizeState).value.image;
                var img := old(images)[i];
                resizeState.None? && !bodyResizing && bodyCursor == ""
                && images == old(images)[i := img.(widthAttr := Some(SizeText(img.styleWidth)),
                                                   heightAttr := Some(SizeText(img.styleHeight)),
                                                   cursor := "", pointerEvents := "", outline := "", onEdge := "false")]
                && Rewritten(img, old(editor), old(edits), threw)
    {
      if !listening || resizeState.None? {
        return false;
      }
      var i := resizeState.value.image;
      var img := images[i];
      images := images[i := img.(widthAttr := Some(SizeText(img.styleWidth)),
                                 heightAttr := Some(SizeText(img.styleHeight)))];
      resizeState := None;
      bodyResizing := false;
      bodyCursor := "";
      images := images[i := images[i].(cursor := "", pointerEvents := "", outline := "", onEdge := "false")];
      threw := UpdateMarkdownImageSize(img);
    }

    /**
     * The source and messages after rewriting for `img`: without a widget nothing; a throw
     * changes nothing; otherwise the rewritten source is written and posted as an `edit`
     * exactly when it differs from the source before.
     */
    ghost predicate Rewritten(img: Image, editor0: Option<string>, edits0: seq<string>, threw: bool)
      reads this
    {
      match editor0
      case None => editor == None && edits == edits0 && !threw
      case Some(content) =>
        match UpdatedContent(content, img.src.GetOr(""), img.alt.GetOr(""), img.styleWidth, img.styleHeight, engine)
        case None => threw && editor == editor0 && edits == edits0
        case Some(c) =>
          !threw && (if c != content then editor == Some(c) && edits == edits0 + [c]
                     else editor == editor0 && edits == edits0)
    }

    /** `updateMarkdownImageSize`: rewrites the source for the resized image. */
    method UpdateMarkdownImageSize(img: Image) returns (threw: bool)
      modifies this
      ensures Rewritten(img, old(editor), old(edits), threw)
      ensures images == old(images) && resizeState == old(resizeState) && bodyResizing == old(bodyResizing)
      ensures bodyCursor == old(bodyCursor) && listening == old(listening)
    {
      if editor.None? {
        return false;
      }
      var content := editor.value;
      var src := img.src.GetOr("");
      var alt := img.alt.GetOr("");
      var updated := UpdatedContent(content, src, alt, img.styleWidth, img.styleHeight, engine);
      if updated.None? {
        return true;
      }
      threw := false;
      var newContent := updated.value;
      if newContent != content {
        editor := Some(newContent);
        edits := edits + [newContent];
      }
    }

    /**
     * `cleanupImageResize`: detaches the document listeners and removes the flag from every
     * image; the listeners bound to the images stay.
     */
    method Cleanup()
      requires Valid()
      modifies this
      ensures Valid() && !listening && |images| == |old(images)|
      ensures forall k :: 0 <= k < |images| ==> images[k] == old(images)[k].(resizeEnabled := false)
      ensures resizeState == old(resizeState) && editor == old(editor) && edits == old(edits)
    {
      listening := false;
      var imgs := images;
      var k := 0;
      while k < |imgs|
        invariant 0 <= k <= |imgs| == |images|
        invariant forall j :: 0 <= j < k ==> imgs[j] == images[j].(resizeEnabled := false)
        invariant forall j :: k <= j < |imgs| ==> imgs[j] == images[j]
      {
        imgs := imgs[k := imgs[k].(resizeEnabled := false)];
        k := k + 1;
      }
      images := imgs;
    }
  }
}
