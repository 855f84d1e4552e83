/** Integer rectangles, the pixels they hold, and their areas. */
module Geometry {

  datatype Point = Point(x: int, y: int)

  /** Half-open on the right and at the bottom. */
  datatype Rect = Rect(left: int, top: int, right: int, bottom: int) {
    function Width(): int { right - left }

    function Height(): int { bottom - top }

    function Area(): int { Width() * Height() }

    predicate Empty() { left >= right || top >= bottom }

    predicate Contains(p: Point) { left <= p.x < right && top <= p.y < bottom }
  }

  /** The indices of the rectangles that hold `p`. */
  function IdsAt(rects: seq<Rect>, p: Point): set<nat> {
    set i: nat | i < |rects| && rects[i].Contains(p)
  }

  /** The pixels of column `x` from `top` down to `bottom`. */
  ghost function Column(x: int, top: int, bottom: int): set<Point>
    decreases bottom - top
  {
    if top >= bottom then {} else Column(x, top, bottom - 1) + {Point(x, bottom - 1)}
  }

  /** The pixels of a rectangle, column by column. */
  ghost function Pixels(r: Rect): set<Point>
    decreases r.right - r.left
  {
    if r.left >= r.right then {}
    else Pixels(r.(right := r.right - 1)) + Column(r.right - 1, r.top, r.bottom)
  }

  lemma {:induction false} InColumn(x: int, top: int, bottom: int, p: Point)
    ensures p in Column(x, top, bottom) <==> p.x == x && top <= p.y < bottom
    decreases bottom - top
  {
    if top < bottom { InColumn(x, top, bottom - 1, p); }
  }

  lemma {:induction false} InPixels(r: Rect, p: Point)
    ensures p in Pixels(r) <==> r.Contains(p)
    decreases r.right - r.left
  {
    if r.left < r.right {
      InPixels(r.(right := r.right - 1), p);
      InColumn(r.right - 1, r.top, r.bottom, p);
    }
  }

  lemma {:induction false} ColumnSize(x: int, top: int, bottom: int)
    requires top <= bottom
    ensures |Column(x, top, bottom)| == bottom - top
    decreases bottom - top
  {
    if top < bottom {
      ColumnSize(x, top, bottom - 1);
      InColumn(x, top, bottom - 1, Point(x, bottom - 1));
    }
  }

  lemma {:induction false} DisjointUnionSize<T>(a: set<T>, b: set<T>)
    requires a !! b
    ensures |a + b| == |a| + |b|
  {
  }

  lemma {:induction false} AreaByColumns(r: Rect)
    ensures r.left == r.right ==> r.Area() == 0
    ensures r.Area() == r.(right := r.right - 1).Area() + r.Height()
  {
  }

  /** The last column adds its height to the number of pixels. */
  lemma {:induction false} PixelsByColumns(r: Rect)
    requires r.left < r.right && r.top <= r.bottom
    ensures |Pixels(r)| == |Pixels(r.(right := r.right - 1))| + r.Height()
  {
    var narrower := r.(right := r.right - 1);
    var column := Column(r.right - 1, r.top, r.bottom);
    assert Pixels(r) == Pixels(narrower) + column;
    ColumnSize(r.right - 1, r.top, r.bottom);
    hide Pixels, Column;
    forall p | p in column
      ensures p !in Pixels(narrower)
    {
      InColumn(r.right - 1, r.top, r.bottom, p);
      InPixels(narrower, p);
    }
    DisjointUnionSize(Pixels(narrower), column);
  }

  /** A rectangle has as many pixels as its area says. */
  lemma {:induction false} AreaCountsPixels(r: Rect)
    requires r.left <= r.right && r.top <= r.bottom
    ensures |Pixels(r)| == r.Area()
    decreases r.right - r.left
  {
    AreaByColumns(r);
    if r.left < r.right {
      hide Pixels, Rect.Area;
      PixelsByColumns(r);
      AreaCountsPixels(r.(right := r.right - 1));
    }
  }
}
