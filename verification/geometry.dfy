/** The game's one collision test: an axis-aligned rectangle overlap with
    strict comparisons, whose first argument may lack a size. */
module Geometry {
  import opened Prelude

  /** The extent the test assumes when the first box has no size of its own. */
  const DefaultExtent := 30

  /** The first argument of the test: a top-left corner and extents that
      may be absent (the player record has no width or height). */
  datatype Box = Box(x: int, y: int, width: Option<int>, height: Option<int>)

  /** The second argument of the test: a top-left corner and explicit extents. */
  datatype Rect = Rect(x: int, y: int, width: int, height: int)

  /** The extent the test uses for a possibly missing size. The source
      writes `width || 30`, and `||` replaces every falsy value, so an
      explicit 0 reads as 30 as well. */
  function Extent(size: Option<int>): (e: int)
    ensures e != 0
    ensures size.Some? && size.value != 0 ==> e == size.value
    ensures size.None? || size.value == 0 ==> e == DefaultExtent
  {
    match size
    case None => DefaultExtent
    case Some(w) => if w == 0 then DefaultExtent else w
  }

  /** A rectangle seen as a first argument, with its explicit size. */
  function AsBox(r: Rect): Box
  {
    Box(r.x, r.y, Some(r.width), Some(r.height))
  }

  /** `checkCollision(a, b)`: strict overlap on both axes. Any integer cell
      inside both boxes makes them collide, whatever their sizes. */
  function Collides(a: Box, b: Rect): (r: bool)
    ensures (exists px, py :: SharedCell(a, b, px, py)) ==> r
  {
    && a.x < b.x + b.width
    && a.x + Extent(a.width) > b.x
    && a.y < b.y + b.height
    && a.y + Extent(a.height) > b.y
  }

  /** Integer point `p` lies in the half-open span `[lo, lo + len)`. */
  predicate Spans(lo: int, len: int, p: int)
  {
    lo <= p < lo + len
  }

  /** The point `(px, py)` is a cell both boxes cover. */
  predicate SharedCell(a: Box, b: Rect, px: int, py: int)
  {
    && Spans(a.x, Extent(a.width), px) && Spans(b.x, b.width, px)
    && Spans(a.y, Extent(a.height), py) && Spans(b.y, b.height, py)
  }

  /** For boxes of positive size the test holds exactly when some integer
      cell lies inside both of them. */
  lemma CollidesIffSharedCell(a: Box, b: Rect)
    requires Extent(a.width) > 0 && Extent(a.height) > 0
    requires b.width > 0 && b.height > 0
    ensures Collides(a, b) <==> exists px, py :: SharedCell(a, b, px, py)
  {
    if Collides(a, b) {
      var px := Max(a.x, b.x);
      var py := Max(a.y, b.y);
      assert SharedCell(a, b, px, py);
    }
  }

  /** Two boxes that only share an edge do not collide: every comparison is strict. */
  lemma TouchingEdgesDoNotCollide(a: Box, b: Rect)
    requires || a.x + Extent(a.width) == b.x || b.x + b.width == a.x
             || a.y + Extent(a.height) == b.y || b.y + b.height == a.y
    ensures !Collides(a, b)
  {
  }

  /** With explicit non-zero sizes on both sides the test is symmetric. */
  lemma CollidesSymmetric(a: Rect, b: Rect)
    requires a.width != 0 && a.height != 0 && b.width != 0 && b.height != 0
    ensures Collides(AsBox(a), b) <==> Collides(AsBox(b), a)
  {
  }

  /** A first box without a size, or with a zero size, behaves as a 30 by 30 box. */
  lemma MissingSizeMeansThirty(x: int, y: int, zeroWidth: bool, b: Rect)
    ensures var w := if zeroWidth then Some(0) else None;
            Collides(Box(x, y, w, None), b) <==> Collides(Box(x, y, Some(30), Some(30)), b)
  {
  }

  /** Boxes (0,0,10,10) and (5,5,10,10) overlap; (0,0,10,10) and (20,20,10,10) do not. */
  lemma OverlapExamples()
    ensures Collides(Box(0, 0, Some(10), Some(10)), Rect(5, 5, 10, 10))
    ensures !Collides(Box(0, 0, Some(10), Some(10)), Rect(20, 20, 10, 10))
  {
  }
}
