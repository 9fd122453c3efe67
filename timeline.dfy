/**
 * The pan state of the vertical timeline (main.js:256-379). The content is one
 * row per day plus padding above and below; when it is taller than the viewport
 * it can be dragged up until its bottom reaches the viewport's bottom, and never
 * down past its top. The offset survives re-layout (on resize) and is clamped
 * into the new bounds then and on every drag step. Content that fits is pinned
 * to offset 0 (it is not centred).
 */
module Timeline {

  const DayHeight := 25   // TIMELINE_DAY_HEIGHT
  const Padding := 30     // TIMELINE_PADDING
  const MaxDragY := 0     // the content's top edge never moves below the viewport's top

  /** `data.length * TIMELINE_DAY_HEIGHT + TIMELINE_PADDING * 2`. */
  function ContentHeight(dayCount: nat): (r: int)
    ensures r >= 2 * Padding
  {
    dayCount * DayHeight + Padding * 2
  }

  /**
   * `Math.min(0, height - contentHeight)`: the lowest offset, at which the
   * content's bottom edge meets the viewport's bottom edge; 0 when it fits.
   */
  function MinDragY(viewportHeight: int, dayCount: nat): (r: int)
    ensures r <= MaxDragY
    ensures r == MaxDragY <==> ContentHeight(dayCount) <= viewportHeight
    ensures r < MaxDragY ==> r == -(ContentHeight(dayCount) - viewportHeight)
  {
    var overflow := viewportHeight - ContentHeight(dayCount);
    if overflow < 0 then overflow else 0
  }

  /** `Math.max(lo, Math.min(hi, y))`. */
  function Clamp(y: int, lo: int, hi: int): (r: int)
    ensures lo <= hi ==> lo <= r <= hi
    ensures lo <= y <= hi ==> r == y
    ensures y < lo ==> r == lo
    ensures lo <= hi && hi < y ==> r == hi
  {
    var capped := if hi < y then hi else y;
    if capped < lo then lo else capped
  }

  /** The up arrow is shown while the content can still move down (`currentY < maxY`). */
  function UpArrowShown(currentY: int, maxY: int): (shown: bool)
    ensures currentY <= maxY ==> (shown <==> Clamp(currentY + 1, currentY, maxY) > currentY)
  {
    currentY < maxY
  }

  /** The down arrow is shown while the content can still move up (`currentY > minY`). */
  function DownArrowShown(currentY: int, minY: int): (shown: bool)
    ensures minY <= currentY ==> (shown <==> Clamp(currentY - 1, minY, currentY) < currentY)
  {
    currentY > minY
  }

  /** The timeline's view state: the module-level `currentTimelineY` and the bounds of the latest layout. */
  class TimelineView {
    var currentY: int
    var minDragY: int

    ghost predicate Valid()
      reads this
    {
      minDragY <= currentY <= MaxDragY
    }

    /** Before the first layout the offset is 0 (`let currentTimelineY = 0`). */
    constructor ()
      ensures Valid()
      ensures currentY == 0 && minDragY == 0
    {
      currentY := 0;
      minDragY := 0;
    }

    /** The bounds computation of `renderTimeline` for `dayCount` days in a viewport of the given height. */
    method Layout(dayCount: nat, viewportHeight: int)
      modifies this
      ensures Valid()
      ensures minDragY == MinDragY(viewportHeight, dayCount)
      ensures currentY == Clamp(old(currentY), minDragY, MaxDragY)
    {
      minDragY := MinDragY(viewportHeight, dayCount);
      currentY := Clamp(currentY, minDragY, MaxDragY);
    }

    /** One drag step by `dy` pixels: the offset moves by `dy` and is clamped into the bounds. */
    method Drag(dy: int)
      requires Valid()
      modifies this`currentY
      ensures Valid()
      ensures currentY == Clamp(old(currentY) + dy, minDragY, MaxDragY)
    {
      var newY := currentY + dy;
      currentY := Clamp(newY, minDragY, MaxDragY);
    }

    /** `updateTimelineArrows(svg, currentTimelineY, minDragY, maxDragY)`. */
    function Arrows(): (shown: (bool, bool))
      reads this
      ensures Valid() ==> (shown == (false, false) <==> minDragY == MaxDragY)
      ensures Valid() && minDragY == MaxDragY ==> currentY == 0
    {
      (UpArrowShown(currentY, MaxDragY), DownArrowShown(currentY, minDragY))
    }
  }

  /**
   * With the offset inside the bounds of a layout, no arrow is shown exactly
   * when the content fits the viewport, and then the offset is 0; an overflowing
   * timeline always shows at least one arrow.
   */
  lemma ArrowsShowRoomToPan(currentY: int, viewportHeight: int, dayCount: nat)
    requires MinDragY(viewportHeight, dayCount) <= currentY <= MaxDragY
    ensures var up, down := UpArrowShown(currentY, MaxDragY), DownArrowShown(currentY, MinDragY(viewportHeight, dayCount));
      (!up && !down <==> ContentHeight(dayCount) <= viewportHeight)
      && (!up && !down ==> currentY == 0)
      && (up <==> currentY < 0)
  {
  }

  /** Content that fits is pinned to the top: every layout then puts the offset at 0. */
  lemma FittingContentIsPinned(y: int, viewportHeight: int, dayCount: nat)
    requires ContentHeight(dayCount) <= viewportHeight
    ensures Clamp(y, MinDragY(viewportHeight, dayCount), MaxDragY) == 0
  {
  }

  /** Laying out again with the same inputs leaves the offset where it is. */
  lemma LayoutIsIdempotent(y: int, viewportHeight: int, dayCount: nat)
    ensures var lo := MinDragY(viewportHeight, dayCount);
      Clamp(Clamp(y, lo, MaxDragY), lo, MaxDragY) == Clamp(y, lo, MaxDragY)
  {
  }

  /**
   * A client: a layout, then the drag steps, then a re-layout with the same
   * sizes. Drags never move the offset out of the bounds, and the re-layout
   * leaves the offset the drags reached (`afterDrags`) where it is.
   */
  method DragThenRelayout(view: TimelineView, dayCount: nat, viewportHeight: int, steps: seq<int>)
    returns (afterDrags: int)
    modifies view
    ensures view.Valid()
    ensures view.minDragY == MinDragY(viewportHeight, dayCount)
    ensures view.minDragY <= afterDrags <= MaxDragY
    ensures view.currentY == afterDrags
  {
    view.Layout(dayCount, viewportHeight);
    for i := 0 to |steps|
      invariant view.Valid()
      invariant view.minDragY == MinDragY(viewportHeight, dayCount)
    {
      view.Drag(steps[i]);
    }
    afterDrags := view.currentY;
    view.Layout(dayCount, viewportHeight);
  }
}
