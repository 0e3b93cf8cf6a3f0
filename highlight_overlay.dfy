/**
 * The highlight overlay of the find widget: a fixed layer of absolutely placed boxes over every
 * match of the query in the rendered editor text, one of them styled as the current match.
 *
 * The page is a parameter: the text nodes of the editor's content element in document order
 * (or none when no content element is found), the client rectangles the browser reports for a
 * range of a text node (`None` when the range cannot be built), the window's scroll offsets and
 * the scroll container the overlay scrolls.
 */
module HighlightOverlay {
  import opened Wrappers
  import opened Text
  import opened RegexLiteral
  import opened LiteralMatch

  /** A rectangle as `Range.getClientRects` reports it, relative to the viewport. */
  datatype ClientRect = ClientRect(top: int, left: int, width: int, height: int)

  /** A highlight box, in document coordinates. */
  datatype HighlightRect = HighlightRect(top: int, left: int, width: int, height: int)

  /** A text node and the client rectangles of its character ranges `[start, end)`. */
  datatype TextNode = TextNode(text: string, clientRects: (nat, nat) -> Option<seq<ClientRect>>)

  /** Which element scrolls the editor, with what the centring arithmetic reads from it. */
  datatype Scroller =
    | WindowScroller(innerHeight: int)
    | ContainerScroller(rectTop: int, clientHeight: int, scrollTop: int)

  /** The rendered page as the overlay sees it. */
  datatype Page = Page(content: Option<seq<TextNode>>, scrollX: int, scrollY: int, scroller: Scroller)

  /** One box in the overlay and whether it has the current-match style. */
  datatype Highlight = Highlight(rect: HighlightRect, current: bool)

  /** The arguments of the last `showHighlights` call, kept for `resync`. */
  datatype ShowArgs = ShowArgs(query: string, currentIndex: int, matchCase: bool, wholeWord: bool, useRegex: bool)

  /** A smooth-scroll request: the window or the container, to a vertical offset. */
  datatype ScrollTarget = ScrollWindow(top: real) | ScrollContainer(top: real)

  /** The visible client rectangles (non-zero width and height), moved by the scroll offsets. */
  function VisibleRects(rs: seq<ClientRect>, sx: int, sy: int): seq<HighlightRect> {
    if rs == [] then []
    else
      var r := Last(rs);
      VisibleRects(rs[..|rs| - 1], sx, sy)
      + (if r.width > 0 && r.height > 0 then [HighlightRect(r.top + sy, r.left + sx, r.width, r.height)] else [])
  }

  /** The boxes for one match of a text node. */
  function MatchRects(node: TextNode, f: Found, sx: int, sy: int): seq<HighlightRect> {
    match node.clientRects(f.index, End(f))
    case None => []
    case Some(rs) => VisibleRects(rs, sx, sy)
  }

  /** The boxes for a list of matches of one text node, in order. */
  function NodeRects(node: TextNode, fs: seq<Found>, sx: int, sy: int): seq<HighlightRect> {
    if fs == [] then [] else MatchRects(node, fs[0], sx, sy) + NodeRects(node, fs[1..], sx, sy)
  }

  /** The boxes of one text node: none for an empty or all-blank node. */
  function NodeContribution(node: TextNode, m: Matcher, sx: int, sy: int): seq<HighlightRect> {
    if |node.text| == 0 || IsBlank(node.text) then []
    else NodeRects(node, ScanFrom(m, node.text, 0), sx, sy)
  }

  /** The boxes of all text nodes, in document order. */
  function Positions(nodes: seq<TextNode>, m: Matcher, sx: int, sy: int): seq<HighlightRect> {
    if nodes == [] then []
    else Positions(nodes[..|nodes| - 1], m, sx, sy) + NodeContribution(Last(nodes), m, sx, sy)
  }

  /** `textContent` of the content element: its text nodes concatenated. */
  function TextContent(nodes: seq<TextNode>): string {
    if nodes == [] then [] else TextContent(nodes[..|nodes| - 1]) + Last(nodes).text
  }

  /**
   * What `findTextPositions` returns: nothing for an empty text or query, `None` when the
   * pattern does not compile (the constructor throws), otherwise the boxes of every match.
   */
  function TextPositions(nodes: seq<TextNode>, query: string, matchCase: bool, wholeWord: bool,
                         useRegex: bool, engine: RegexEngine, sx: int, sy: int): Option<seq<HighlightRect>>
  {
    if TextContent(nodes) == "" || query == "" then Some([])
    else
      match Compile(OverlayRegex(query, matchCase, wholeWord, useRegex), engine)
      case None => None
      case Some(m) => Some(Positions(nodes, m, sx, sy))
  }

  /** The boxes of the nodes with one more node at the end: that node's boxes come last. */
  lemma PositionsSnoc(a: seq<TextNode>, n: TextNode, m: Matcher, sx: int, sy: int)
    ensures Positions(a + [n], m, sx, sy) == Positions(a, m, sx, sy) + NodeContribution(n, m, sx, sy)
  {
    assert (a + [n])[..|a + [n]| - 1] == a;
  }

  /** The text nodes are walked one after another: the boxes of two runs of nodes concatenate. */
  lemma {:induction false} PositionsAppend(a: seq<TextNode>, b: seq<TextNode>, m: Matcher, sx: int, sy: int)
    ensures Positions(a + b, m, sx, sy) == Positions(a, m, sx, sy) + Positions(b, m, sx, sy)
    decreases |b|
  {
    if b == [] {
      assert a + b == a;
    } else {
      var b0, n := b[..|b| - 1], b[|b| - 1];
      assert b == b0 + [n];
      assert a + b == (a + b0) + [n];
      PositionsSnoc(a + b0, n, m, sx, sy);
      PositionsSnoc(b0, n, m, sx, sy);
      PositionsAppend(a, b0, m, sx, sy);
      SeqAssoc(Positions(a, m, sx, sy), Positions(b0, m, sx, sy), NodeContribution(n, m, sx, sy));
    }
  }

  predicate Visible(h: HighlightRect) {
    h.width > 0 && h.height > 0
  }

  lemma {:induction false} VisibleRectsVisible(rs: seq<ClientRect>, sx: int, sy: int)
    ensures forall i :: 0 <= i < |VisibleRects(rs, sx, sy)| ==> Visible(VisibleRects(rs, sx, sy)[i])
    ensures |VisibleRects(rs, sx, sy)| <= |rs|
  {
    if rs != [] {
      VisibleRectsVisible(rs[..|rs| - 1], sx, sy);
    }
  }

  lemma {:induction false} NodeRectsVisible(node: TextNode, fs: seq<Found>, sx: int, sy: int)
    ensures forall i :: 0 <= i < |NodeRects(node, fs, sx, sy)| ==> Visible(NodeRects(node, fs, sx, sy)[i])
  {
    if fs != [] {
      NodeRectsVisible(node, fs[1..], sx, sy);
      match node.clientRects(fs[0].index, End(fs[0]))
      case None =>
      case Some(rs) => VisibleRectsVisible(rs, sx, sy);
    }
  }

  /** Every box the overlay draws has a positive width and height. */
  lemma {:induction false} PositionsVisible(nodes: seq<TextNode>, m: Matcher, sx: int, sy: int)
    ensures forall i :: 0 <= i < |Positions(nodes, m, sx, sy)| ==> Visible(Positions(nodes, m, sx, sy)[i])
  {
    if nodes != [] {
      PositionsVisible(nodes[..|nodes| - 1], m, sx, sy);
      var node := Last(nodes);
      if !(|node.text| == 0 || IsBlank(node.text)) {
        NodeRectsVisible(node, ScanFrom(m, node.text, 0), sx, sy);
      }
    }
  }

  /** A blank text node (only white space) adds no box, wherever it stands. */
  lemma BlankNodeAddsNothing(a: seq<TextNode>, blank: TextNode, b: seq<TextNode>, m: Matcher, sx: int, sy: int)
    requires IsBlank(blank.text)
    ensures Positions(a + [blank] + b, m, sx, sy) == Positions(a + b, m, sx, sy)
  {
    PositionsAppend(a + [blank], b, m, sx, sy);
    PositionsAppend(a, b, m, sx, sy);
    assert Positions(a + [blank], m, sx, sy) == Positions(a, m, sx, sy) by {
      PositionsSnoc(a, blank, m, sx, sy);
      assert NodeContribution(blank, m, sx, sy) == [];
      assert Positions(a, m, sx, sy) + [] == Positions(a, m, sx, sy);
    }
  }

  /** The visible rectangles of one match's range, moved into document coordinates. */
  method VisibleBoxes(cs: seq<ClientRect>, sx: int, sy: int) returns (rects: seq<HighlightRect>)
    ensures rects == VisibleRects(cs, sx, sy)
  {
    rects := [];
    var j := 0;
    while j < |cs|
      invariant 0 <= j <= |cs|
      invariant rects == VisibleRects(cs[..j], sx, sy)
    {
      var c := cs[j];
      assert cs[..j + 1][..j] == cs[..j];
      if c.width > 0 && c.height > 0 {
        rects := rects + [HighlightRect(c.top + sy, c.left + sx, c.width, c.height)];
      }
      j := j + 1;
    }
    assert cs[..|cs|] == cs;
  }

  lemma SeqAssoc<T>(a: seq<T>, b: seq<T>, c: seq<T>)
    ensures (a + b) + c == a + (b + c)
  {
  }

  /** The boxes of one match: the visible rectangles of its range, none when the range fails. */
  method MatchBoxes(node: TextNode, f: Found, sx: int, sy: int) returns (boxes: seq<HighlightRect>)
    ensures boxes == MatchRects(node, f, sx, sy)
  {
    boxes := [];
    var client := node.clientRects(f.index, End(f));
    if client.Some? {
      boxes := VisibleBoxes(client.value, sx, sy);
    }
  }

  /** The boxes of one text node: none for an empty or blank node, else those of every match. */
  method NodeBoxes(node: TextNode, m: Matcher, sx: int, sy: int) returns (rects: seq<HighlightRect>)
    ensures rects == NodeContribution(node, m, sx, sy)
  {
    if |node.text| == 0 || IsBlank(node.text) {
      rects := [];
    } else {
      rects := ScanBoxes(node, m, 0, sx, sy);
    }
  }

  /**
   * A global expression run over a text node from `lastIndex == start` until it finds no more,
   * its boxes gathered in order (the editor always starts a fresh expression, at 0).
   */
  method ScanBoxes(node: TextNode, m: Matcher, start: nat, sx: int, sy: int) returns (rects: seq<HighlightRect>)
    ensures rects == NodeRects(node, ScanFrom(m, node.text, start), sx, sy)
  {
    rects := [];
    ghost var all := NodeRects(node, ScanFrom(m, node.text, start), sx, sy);
    var lastIndex: nat := start;
    var found := FirstMatchFrom(m, node.text, lastIndex);
    while found.Some?
      invariant start <= |node.text| + 1 ==> lastIndex <= |node.text| + 1
      invariant found == FirstMatchFrom(m, node.text, lastIndex)
      invariant rects + NodeRects(node, ScanFrom(m, node.text, lastIndex), sx, sy) == all
      decreases |node.text| + 1 - lastIndex
    {
      rects, lastIndex := NextBoxes(node, m, lastIndex, found.value, rects, all, sx, sy);
      found := FirstMatchFrom(m, node.text, lastIndex);
    }
    assert rects == all by {
      DoneRects(node, m, lastIndex, sx, sy);
      assert rects + [] == rects;
    }
  }

  /** One round of the scan: the boxes of match `f` are added and `lastIndex` moves past it. */
  method NextBoxes(node: TextNode, m: Matcher, lastIndex: nat, f: Found, rects: seq<HighlightRect>,
                   ghost all: seq<HighlightRect>, sx: int, sy: int)
    returns (rects': seq<HighlightRect>, lastIndex': nat)
    requires FirstMatchFrom(m, node.text, lastIndex) == Some(f)
    requires rects + NodeRects(node, ScanFrom(m, node.text, lastIndex), sx, sy) == all
    ensures rects' + NodeRects(node, ScanFrom(m, node.text, lastIndex'), sx, sy) == all
    ensures lastIndex < lastIndex' <= |node.text| + 1
  {
    ghost var later := NodeRects(node, ScanFrom(m, node.text, NextLastIndex(f)), sx, sy);
    var boxes := MatchBoxes(node, f, sx, sy);
    StepRects(node, m, lastIndex, f, sx, sy);
    SeqAssoc(rects, boxes, later);
    rects' := rects + boxes;
    NextLastIndexAdvances(m, node.text, lastIndex);
    lastIndex' := NextLastIndex(f);
  }

  /** A scan that finds nothing gives no boxes. */
  lemma DoneRects(node: TextNode, m: Matcher, from: nat, sx: int, sy: int)
    requires FirstMatchFrom(m, node.text, from).None?
    ensures NodeRects(node, ScanFrom(m, node.text, from), sx, sy) == []
  {
    ScanStep(m, node.text, from);
  }

  /** The boxes of the scan from `from` are those of its first match, then those of the rest. */
  lemma StepRects(node: TextNode, m: Matcher, from: nat, f: Found, sx: int, sy: int)
    requires FirstMatchFrom(m, node.text, from) == Some(f)
    ensures NodeRects(node, ScanFrom(m, node.text, from), sx, sy)
            == MatchRects(node, f, sx, sy) + NodeRects(node, ScanFrom(m, node.text, NextLastIndex(f)), sx, sy)
  {
    ScanStep(m, node.text, from);
    var rest := ScanFrom(m, node.text, NextLastIndex(f));
    assert ([f] + rest)[1..] == rest;
  }

  /**
   * `findTextPositions`: walks the text nodes in document order and collects the boxes of each
   * non-blank one.
   */
  method FindTextPositions(nodes: seq<TextNode>, query: string, matchCase: bool, wholeWord: bool,
                           useRegex: bool, engine: RegexEngine, sx: int, sy: int)
    returns (r: Option<seq<HighlightRect>>)
    ensures r == TextPositions(nodes, query, matchCase, wholeWord, useRegex, engine, sx, sy)
  {
    if TextContent(nodes) == "" || query == "" {
      return Some([]);
    }
    var compiled := Compile(OverlayRegex(query, matchCase, wholeWord, useRegex), engine);
    if compiled.None? {
      return None;
    }
    var m := compiled.value;
    var rects: seq<HighlightRect> := [];
    var k := 0;
    while k < |nodes|
      invariant 0 <= k <= |nodes|
      invariant rects == Positions(nodes[..k], m, sx, sy)
    {
      assert nodes[..k + 1][..k] == nodes[..k];
      var boxes := NodeBoxes(nodes[k], m, sx, sy);
      rects := rects + boxes;
      k := k + 1;
    }
    assert nodes[..|nodes|] == nodes;
    return Some(rects);
  }

  /** The overlay's boxes for a list of rectangles, the one at `currentIndex` styled as current. */
  function Render(rects: seq<HighlightRect>, currentIndex: int): (r: seq<Highlight>)
    ensures |r| == |rects|
    ensures forall i :: 0 <= i < |rects| ==> r[i] == Highlight(rects[i], i == currentIndex)
  {
    if rects == [] then []
    else Render(rects[..|rects| - 1], currentIndex) + [Highlight(Last(rects), |rects| - 1 == currentIndex)]
  }

  /** The same boxes with the current-match style moved to `currentIndex`. */
  function Restyle(hs: seq<Highlight>, currentIndex: int): (r: seq<Highlight>)
    ensures |r| == |hs|
    ensures forall i :: 0 <= i < |hs| ==> r[i] == Highlight(hs[i].rect, i == currentIndex)
  {
    if hs == [] then []
    else Restyle(hs[..|hs| - 1], currentIndex) + [Highlight(Last(hs).rect, |hs| - 1 == currentIndex)]
  }

  /** Restyling keeps the boxes and only moves the current style. */
  lemma RestyleRender(rects: seq<HighlightRect>, c1: int, c2: int)
    ensures Restyle(Render(rects, c1), c2) == Render(rects, c2)
  {
  }

  /** What `showHighlights` leads to: the boxes to draw, or `None` when it throws. */
  function ShowResult(args: ShowArgs, page: Page, engine: RegexEngine): Option<seq<HighlightRect>> {
    if args.query == "" || page.content.None? then Some([])
    else TextPositions(page.content.value, args.query, args.matchCase, args.wholeWord, args.useRegex,
                       engine, page.scrollX, page.scrollY)
  }

  /** The boxes on the page after `showHighlights(args)`. */
  function ShownElements(args: ShowArgs, page: Page, engine: RegexEngine): seq<Highlight> {
    match ShowResult(args, page, engine)
    case None => []
    case Some(rects) => Render(rects, args.currentIndex)
  }

  /** Restyling the drawn boxes for the index they were drawn with leaves them as they are. */
  lemma RestyleShown(args: ShowArgs, page: Page, engine: RegexEngine)
    ensures Restyle(ShownElements(args, page, engine), args.currentIndex) == ShownElements(args, page, engine)
  {
    match ShowResult(args, page, engine)
    case None =>
    case Some(rects) => RestyleRender(rects, args.currentIndex, args.currentIndex);
  }

  /** The centring offset of `scrollToHighlight` for a box, never above the top. */
  function ScrollTargetFor(h: HighlightRect, scroller: Scroller): (t: ScrollTarget)
    ensures t.top >= 0.0
  {
    match scroller
    case WindowScroller(innerHeight) =>
      var target := (h.top as real) - (innerHeight as real) / 2.0 + (h.height as real) / 2.0;
      ScrollWindow(if target > 0.0 then target else 0.0)
    case ContainerScroller(rectTop, clientHeight, scrollTop) =>
      var target := ((h.top - rectTop + scrollTop) as real) - (clientHeight as real) / 2.0 + (h.height as real) / 2.0;
      ScrollContainer(if target > 0.0 then target else 0.0)
  }

  /**
   * The box's middle is brought to the middle of the scroller's view, except when that would
   * need scrolling above the top, where the offset is 0.
   */
  lemma ScrollCentres(h: HighlightRect, scroller: Scroller)
    ensures var t := ScrollTargetFor(h, scroller).top;
            var middle := if scroller.WindowScroller? then (h.top as real) + (h.height as real) / 2.0
                          else ((h.top - scroller.rectTop + scroller.scrollTop) as real) + (h.height as real) / 2.0;
            var half := if scroller.WindowScroller? then (scroller.innerHeight as real) / 2.0
                        else (scroller.clientHeight as real) / 2.0;
            (t > 0.0 ==> t + half == middle) && (t == 0.0 <==> middle - half <= 0.0)
  {
  }

  /** The scroll request `scrollToHighlight(index)` makes, if any. */
  function ScrollRequest(alive: bool, elements: seq<Highlight>, index: int, page: Page): seq<ScrollTarget> {
    if !alive || !(0 <= index < |elements|) || page.content.None? then []
    else [ScrollTargetFor(elements[index].rect, page.scroller)]
  }

  class Overlay {
    /** `overlayContainer !== null`. */
    var alive: bool
    /** The container's children, in order. */
    var elements: seq<Highlight>
    var lastArgs: Option<ShowArgs>
    /** The scroll requests made so far. */
    var scrolls: seq<ScrollTarget>
    /** The JavaScript regular-expression engine. */
    const engine: RegexEngine

    ghost predicate Valid()
      reads this
    {
      !alive ==> elements == []
    }

    /** The container is created empty and attached to the page. */
    constructor (engine: RegexEngine)
      ensures Valid()
      ensures alive && elements == [] && lastArgs.None? && scrolls == [] && this.engine == engine
    {
      alive := true;
      elements := [];
      lastArgs := None;
      scrolls := [];
      this.engine := engine;
    }

    /**
     * Records the arguments, clears the boxes and draws one per visible match rectangle;
     * returns their number, or `None` when the pattern's constructor throws. A removed
     * overlay draws nothing and records nothing.
     */
    method ShowHighlights(args: ShowArgs, page: Page) returns (count: Option<nat>)
      requires Valid()
      modifies this
      ensures Valid()
      ensures alive == old(alive) && scrolls == old(scrolls)
      ensures !alive ==> count == Some(0) && lastArgs == old(lastArgs) && elements == []
      ensures alive ==> lastArgs == Some(args) && elements == ShownElements(args, page, engine)
      ensures alive ==> count == (match ShowResult(args, page, engine)
                                  case None => None
                                  case Some(rects) => Some(|rects|))
    {
      if !alive {
        return Some(0);
      }
      lastArgs := Some(args);
      ClearHighlights();
      if args.query == "" {
        return Some(0);
      }
      if page.content.None? {
        return Some(0);
      }
      var found := FindTextPositions(page.content.value, args.query, args.matchCase, args.wholeWord,
                                     args.useRegex, engine, page.scrollX, page.scrollY);
      if found.None? {
        return None;
      }
      var rects := found.value;
      var drawn: seq<Highlight> := [];
      var i := 0;
      while i < |rects|
        invariant 0 <= i <= |rects|
        invariant drawn == Render(rects[..i], args.currentIndex)
      {
        assert rects[..i + 1][..i] == rects[..i];
        drawn := drawn + [Highlight(rects[i], i == args.currentIndex)];
        i := i + 1;
      }
      assert rects[..|rects|] == rects;
      elements := drawn;
      return Some(|rects|);
    }

    /** Empties the container. */
    method ClearHighlights()
      requires Valid()
      modifies this
      ensures Valid()
      ensures elements == [] && alive == old(alive) && lastArgs == old(lastArgs) && scrolls == old(scrolls)
    {
      if alive {
        elements := [];
      }
    }

    /** Detaches the container; the overlay draws nothing afterwards. */
    method Destroy()
      modifies this
      ensures Valid()
      ensures !alive && elements == [] && lastArgs == old(lastArgs) && scrolls == old(scrolls)
    {
      alive := false;
      elements := [];
    }

    /** Gives the current-match style to the box at `currentIndex` and the plain style to all others. */
    method UpdateCurrentHighlight(currentIndex: int)
      requires Valid()
      modifies this
      ensures Valid()
      ensures elements == Restyle(old(elements), currentIndex)
      ensures alive == old(alive) && lastArgs == old(lastArgs) && scrolls == old(scrolls)
    {
      if !alive {
        return;
      }
      var hs := elements;
      var i := 0;
      while i < |hs|
        invariant 0 <= i <= |hs| == |elements|
        invariant forall j :: 0 <= j < i ==> hs[j] == Highlight(elements[j].rect, j == currentIndex)
        invariant forall j :: i <= j < |hs| ==> hs[j] == elements[j]
      {
        hs := hs[i := Highlight(hs[i].rect, i == currentIndex)];
        i := i + 1;
      }
      elements := hs;
    }

    /** Scrolls the scroller so that the box at `index` is centred, when there is such a box. */
    method ScrollToHighlight(index: int, page: Page)
      requires Valid()
      modifies this
      ensures Valid()
      ensures scrolls == old(scrolls) + ScrollRequest(alive, elements, index, page)
      ensures alive == old(alive) && elements == old(elements) && lastArgs == old(lastArgs)
    {
      if !alive {
        return;
      }
      if !(0 <= index < |elements|) {
        return;
      }
      if page.content.None? {
        return;
      }
      scrolls := scrolls + [ScrollTargetFor(elements[index].rect, page.scroller)];
    }

    /** Redraws with the last recorded arguments against the page as it is now. */
    method Resync(page: Page) returns (count: Option<nat>)
      requires Valid()
      modifies this
      ensures Valid()
      ensures alive == old(alive) && scrolls == old(scrolls) && lastArgs == old(lastArgs)
      ensures old(lastArgs).None? ==> elements == old(elements) && count == Some(0)
      ensures alive && old(lastArgs).Some? ==> elements == ShownElements(old(lastArgs).value, page, engine)
    {
      if lastArgs.None? {
        return Some(0);
      }
      count := ShowHighlights(lastArgs.value, page);
    }
  }
}
