/**
 * The resizable outline panel: its initial width, the drag handle that is added unless
 * resizing is switched off, the drag state (`isResizing`, `startX`, `startWidth`), the clamp
 * of the dragged width to [150, 500], the double-click reset, and the `update-outline-width`
 * messages sent to the extension for each width applied.
 *
 * Widths are whole pixels. The 100 ms wait for the outline element is collapsed into setup,
 * whose `outlinePresent` parameter says whether the element exists by then.
 */
module OutlineResize {
  import opened Wrappers

  const MinWidth := 150
  const MaxWidth := 500
  /** The width used when the options give none, or give 0. */
  const FallbackWidth := 200

  /** The outline options of the editor options. `None` stands for a key that is not set. */
  datatype OutlineOptions = OutlineOptions(
    outlineWidth: Option<int>, outlinePosition: Option<string>, enableOutlineResize: Option<bool>)

  /** `options.outlineWidth || 200`. */
  function DefaultWidth(outlineWidth: Option<int>): (w: int)
    ensures outlineWidth.None? || outlineWidth == Some(0) ==> w == FallbackWidth
    ensures outlineWidth.Some? && outlineWidth.value != 0 ==> w == outlineWidth.value
  {
    match outlineWidth
    case Some(v) => if v == 0 then FallbackWidth else v
    case None => FallbackWidth
  }

  /** `options.outlinePosition || 'left'`. */
  function Position(outlinePosition: Option<string>): (p: string)
    ensures outlinePosition.None? || outlinePosition == Some("") ==> p == "left"
    ensures outlinePosition.Some? && outlinePosition.value != "" ==> p == outlinePosition.value
  {
    match outlinePosition
    case Some(s) => if s == "" then "left" else s
    case None => "left"
  }

  /** `options.enableOutlineResize !== false`: only an explicit `false` switches resizing off. */
  function ResizeEnabled(enable: Option<bool>): (r: bool)
    ensures !r <==> enable == Some(false)
  {
    enable != Some(false)
  }

  /** `Math.max(150, Math.min(500, w))`. */
  function Clamp(w: int): (r: int)
    ensures MinWidth <= r <= MaxWidth
    ensures MinWidth <= w <= MaxWidth ==> r == w
    ensures w < MinWidth ==> r == MinWidth
    ensures w > MaxWidth ==> r == MaxWidth
  {
    if w < MinWidth then MinWidth else if w > MaxWidth then MaxWidth else w
  }

  /** How far the mouse has moved the outline's free edge: rightward for a left outline. */
  function Delta(position: string, startX: int, clientX: int): (d: int)
    ensures position == "left" ==> d == clientX - startX
    ensures position != "left" ==> d == startX - clientX
  {
    if position == "left" then clientX - startX else startX - clientX
  }

  /** The width a drag gives, as a function of where it started and where the mouse is. */
  function DragWidth(position: string, startX: int, startWidth: int, clientX: int): (w: int)
    ensures MinWidth <= w <= MaxWidth
  {
    Clamp(startWidth + Delta(position, startX, clientX))
  }

  /**
   * Dragging is monotone in the mouse position: further right widens a left outline and
   * narrows a right one, and moving back to the start of the drag restores a width that was
   * within the bounds.
   */
  lemma DragMonotone(position: string, startX: int, startWidth: int, x1: int, x2: int)
    requires x1 <= x2
    ensures position == "left" ==> DragWidth(position, startX, startWidth, x1) <= DragWidth(position, startX, startWidth, x2)
    ensures position != "left" ==> DragWidth(position, startX, startWidth, x1) >= DragWidth(position, startX, startWidth, x2)
    ensures MinWidth <= startWidth <= MaxWidth ==> DragWidth(position, startX, startWidth, startX) == startWidth
  {
  }

  /** The messages the outline sends: `{command: 'update-outline-width', width}`. */
  datatype Message = UpdateOutlineWidth(width: int)

  /**
   * The outline element and the state of the drag handlers bound to it. The constructor is
   * `setupResizableOutline` with its delayed part run.
   */
  class ResizableOutline {
    /** Whether setup found the outline element and set its styles. */
    var styled: bool
    /** The outline's style width in pixels, once set. */
    var width: Option<int>
    /** Whether the drag handle and its listeners were added. */
    var hasHandle: bool
    var isResizing: bool
    var startX: int
    var startWidth: int
    /** Whether the body carries the `col-resize` cursor and `user-select: none`. */
    var bodyDragging: bool
    /** What was sent to the extension, in order. */
    var sent: seq<Message>
    const options: OutlineOptions

    /** Before a drag or the handle there is nothing to track; a drag needs the handle. */
    ghost predicate Valid()
      reads this
    {
      (isResizing ==> hasHandle) && (hasHandle ==> styled) && (bodyDragging ==> hasHandle)
    }

    /**
     * `setupResizableOutline(options)`: no options does nothing; otherwise, when the outline
     * exists, it gets the default width and, unless resizing is switched off, the handle.
     */
    constructor (options: Option<OutlineOptions>, outlinePresent: bool)
      ensures Valid() && !isResizing && !bodyDragging && sent == []
      ensures styled <==> options.Some? && outlinePresent
      ensures styled ==> width == Some(DefaultWidth(options.value.outlineWidth))
      ensures !styled ==> width == None
      ensures hasHandle <==> styled && ResizeEnabled(options.value.enableOutlineResize)
      ensures options.Some? ==> this.options == options.value
    {
      this.options := options.GetOr(OutlineOptions(None, None, None));
      styled := options.Some? && outlinePresent;
      width := if options.Some? && outlinePresent then Some(DefaultWidth(options.value.outlineWidth)) else None;
      hasHandle := options.Some? && outlinePresent && ResizeEnabled(options.value.enableOutlineResize);
      isResizing := false;
      startX := 0;
      startWidth := 0;
      bodyDragging := false;
      sent := [];
    }

    /** A mouse-down on the handle, with the outline's rendered width: the drag starts. */
    method HandleMouseDown(clientX: int, offsetWidth: int)
      requires Valid()
      modifies this
      ensures Valid() && width == old(width) && sent == old(sent) && hasHandle == old(hasHandle)
      ensures hasHandle ==> isResizing && startX == clientX && startWidth == offsetWidth && bodyDragging
      ensures !hasHandle ==> isResizing == old(isResizing) && startX == old(startX)
                             && startWidth == old(startWidth) && bodyDragging == old(bodyDragging)
    {
      if hasHandle {
        isResizing := true;
        startX := clientX;
        startWidth := offsetWidth;
        bodyDragging := true;
      }
    }

    /**
     * A mouse-move anywhere: during a drag the outline takes the clamped width and that same
     * width is sent; otherwise nothing changes and nothing is sent.
     */
    method MouseMove(clientX: int)
      requires Valid()
      modifies this
      ensures Valid() && isResizing == old(isResizing) && startX == old(startX) && startWidth == old(startWidth)
      ensures bodyDragging == old(bodyDragging)
      ensures !isResizing ==> width == old(width) && sent == old(sent)
      ensures isResizing ==>
                var w := DragWidth(Position(options.outlinePosition), startX, startWidth, clientX);
                MinWidth <= w <= MaxWidth && width == Some(w) && sent == old(sent) + [UpdateOutlineWidth(w)]
    {
      if !isResizing {
        return;
      }
      var deltaX := if Position(options.outlinePosition) == "left" then clientX - startX else startX - clientX;
      var newWidth := Clamp(startWidth + deltaX);
      width := Some(newWidth);
      sent := sent + [UpdateOutlineWidth(newWidth)];
    }

    /** A mouse-up anywhere ends a drag and clears the body styles. */
    method MouseUp()
      requires Valid()
      modifies this
      ensures Valid() && !isResizing && width == old(width) && sent == old(sent)
      ensures startX == old(startX) && startWidth == old(startWidth)
      ensures bodyDragging == (old(bodyDragging) && !old(isResizing))
    {
      if isResizing {
        isResizing := false;
        bodyDragging := false;
      }
    }

    /** A double-click on the handle: back to the default width, which is sent. */
    method HandleDoubleClick()
      requires Valid()
      modifies this
      ensures Valid() && isResizing == old(isResizing) && startX == old(startX) && startWidth == old(startWidth)
      ensures bodyDragging == old(bodyDragging)
      ensures hasHandle ==> width == Some(DefaultWidth(options.outlineWidth))
                            && sent == old(sent) + [UpdateOutlineWidth(DefaultWidth(options.outlineWidth))]
      ensures !hasHandle ==> width == old(width) && sent == old(sent)
    {
      if hasHandle {
        var resetWidth := DefaultWidth(options.outlineWidth);
        width := Some(resetWidth);
        sent := sent + [UpdateOutlineWidth(resetWidth)];
      }
    }
  }

  /** The width of every message of a drag session lies within the bounds. */
  ghost predicate DragMessagesBounded(sent: seq<Message>)
  {
    forall k :: 0 <= k < |sent| ==> MinWidth <= sent[k].width <= MaxWidth
  }

  /**
   * A run of mouse moves, each during a drag, sends one message per move, each with the
   * width the outline then takes and each within the bounds.
   */
  lemma {:induction false} DragRunBounded(position: string, startX: int, startWidth: int, xs: seq<int>)
    ensures DragMessagesBounded(DragRun(position, startX, startWidth, xs))
    ensures |DragRun(position, startX, startWidth, xs)| == |xs|
  {
    if xs != [] {
      DragRunBounded(position, startX, startWidth, xs[1..]);
      var rest := DragRun(position, startX, startWidth, xs[1..]);
      assert DragRun(position, startX, startWidth, xs) == [UpdateOutlineWidth(DragWidth(position, startX, startWidth, xs[0]))] + rest;
    }
  }

  /** The messages a drag from `startX` sends for the mouse positions `xs`. */
  function DragRun(position: string, startX: int, startWidth: int, xs: seq<int>): seq<Message> {
    if xs == [] then []
    else [UpdateOutlineWidth(DragWidth(position, startX, startWidth, xs[0]))] + DragRun(position, startX, startWidth, xs[1..])
  }
}
