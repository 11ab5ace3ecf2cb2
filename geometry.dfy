/** The viewport test of `isInViewport`, on integer coordinates. */
module Geometry {

  /** The edges of an element's bounding client rectangle, relative to the
      top-left corner of the viewport. */
  datatype Rect = Rect(top: int, right: int, bottom: int, left: int)

  /** The window's inner size and the document element's client size; a
      window size of 0 is falsy and falls back to the document's. */
  datatype Viewport = Viewport(innerWidth: int, innerHeight: int, clientWidth: int, clientHeight: int)

  /** `window.innerHeight || document.documentElement.clientHeight` */
  function Height(vp: Viewport): (h: int)
    ensures vp.innerHeight != 0 ==> h == vp.innerHeight
    ensures vp.innerHeight == 0 ==> h == vp.clientHeight
  {
    if vp.innerHeight != 0 then vp.innerHeight else vp.clientHeight
  }

  /** `window.innerWidth || document.documentElement.clientWidth` */
  function Width(vp: Viewport): (w: int)
    ensures vp.innerWidth != 0 ==> w == vp.innerWidth
    ensures vp.innerWidth == 0 ==> w == vp.clientWidth
  {
    if vp.innerWidth != 0 then vp.innerWidth else vp.clientWidth
  }

  /** Pixel (x, y) belongs both to the element's box, columns
      `[left, right)` and rows `[top, bottom)`, and to the viewport extended
      `threshold` rows below its bottom edge. */
  ghost predicate SharedPixel(r: Rect, vp: Viewport, threshold: int, x: int, y: int)
  {
    && r.left <= x < r.right && r.top <= y < r.bottom
    && 0 <= x < Width(vp) && 0 <= y < Height(vp) + threshold
  }

  function Max(a: int, b: int): int
  {
    if a < b then b else a
  }

  /** The edge test of `isInViewport`. For a box of positive size and a
      non-empty extended viewport it holds exactly when the two share a
      pixel, the box's top-left-most pixel inside the viewport being a
      witness. */
  predicate IsInViewport(r: Rect, vp: Viewport, threshold: int): (inView: bool)
    ensures r.top < r.bottom && r.left < r.right && 0 < Width(vp) && 0 < Height(vp) + threshold ==>
              (inView <==> exists x, y :: SharedPixel(r, vp, threshold, x, y))
  {
    var inView := r.bottom > 0 && r.right > 0 && r.top - threshold < Height(vp) && r.left < Width(vp);
    assert inView && r.top < r.bottom && r.left < r.right && 0 < Width(vp) && 0 < Height(vp) + threshold
           ==> SharedPixel(r, vp, threshold, Max(r.left, 0), Max(r.top, 0));
    inView
  }

  /** Raising the threshold never turns a visible element invisible. */
  lemma ThresholdMonotone(r: Rect, vp: Viewport, t1: int, t2: int)
    requires t1 <= t2
    ensures IsInViewport(r, vp, t1) ==> IsInViewport(r, vp, t2)
  {
  }

  /** The threshold moves only the top boundary: once the other three edges
      are in view, the element counts as visible exactly for the thresholds
      above `top - height`. */
  lemma ThresholdShiftsTopOnly(r: Rect, vp: Viewport, t: int)
    requires r.bottom > 0 && r.right > 0 && r.left < Width(vp)
    ensures IsInViewport(r, vp, t) <==> t > r.top - Height(vp)
  {
  }

  /** The other three edges do not depend on the threshold: an element that
      fails one of them fails for every threshold. */
  lemma OutsideSidewaysForAnyThreshold(r: Rect, vp: Viewport, t: int)
    requires r.bottom <= 0 || r.right <= 0 || r.left >= Width(vp)
    ensures !IsInViewport(r, vp, t)
  {
  }

  /** An element whose top is 40 pixels below the fold of an 800 pixel
      window counts as visible with a threshold of 50 and not without one. */
  lemma FortyBelowTheFold()
    ensures IsInViewport(Rect(840, 100, 940, 0), Viewport(1024, 800, 1024, 800), 50)
    ensures !IsInViewport(Rect(840, 100, 940, 0), Viewport(1024, 800, 1024, 800), 0)
  {
  }
}
