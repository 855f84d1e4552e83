/** How the areas of separated regions add up to the area of one input rectangle. */
module RegionArea {
  import opened Geometry
  import opened SeparateRects

  /** The summed area of those of the first `n` regions that are chosen and hold input `i`. */
  function AreaOver(out: seq<RectSet>, chosen: seq<bool>, i: nat, n: nat): int
    requires n <= |out| == |chosen|
  {
    if n == 0 then 0
    else AreaOver(out, chosen, i, n - 1) + if chosen[n - 1] && i in out[n - 1].ids then out[n - 1].rect.Area() else 0
  }

  ghost function PixelsOver(out: seq<RectSet>, chosen: seq<bool>, i: nat, n: nat): set<Point>
    requires n <= |out| == |chosen|
  {
    if n == 0 then {}
    else PixelsOver(out, chosen, i, n - 1)
         + if chosen[n - 1] && i in out[n - 1].ids then Pixels(out[n - 1].rect) else {}
  }

  ghost predicate ChosenOver(out: seq<RectSet>, chosen: seq<bool>, i: nat, k: nat, p: Point)
    requires k < |out| == |chosen|
  {
    chosen[k] && i in out[k].ids && out[k].rect.Contains(p)
  }

  lemma {:induction false} InPixelsOver(out: seq<RectSet>, chosen: seq<bool>, i: nat, n: nat, p: Point)
    requires n <= |out| == |chosen|
    ensures p in PixelsOver(out, chosen, i, n) <==> exists k :: 0 <= k < n && ChosenOver(out, chosen, i, k, p)
  {
    if n > 0 {
      InPixelsOver(out, chosen, i, n - 1, p);
      InPixels(out[n - 1].rect, p);
      assert ChosenOver(out, chosen, i, n - 1, p)
        <==> p in if chosen[n - 1] && i in out[n - 1].ids then Pixels(out[n - 1].rect) else {};
    }
  }

  lemma {:induction false} RegionIsFresh(input: seq<Rect>, out: seq<RectSet>, chosen: seq<bool>, i: nat, n: nat)
    requires Separates(input, out) && n < |out| == |chosen|
    ensures PixelsOver(out, chosen, i, n) !! Pixels(out[n].rect)
  {
    forall p | p in Pixels(out[n].rect)
      ensures p !in PixelsOver(out, chosen, i, n)
    {
      InPixels(out[n].rect, p);
      InPixelsOver(out, chosen, i, n, p);
    }
  }

  ghost predicate FreshRegion(out: seq<RectSet>, chosen: seq<bool>, i: nat, n: nat)
    requires n < |out| == |chosen|
  {
    !out[n].rect.Empty() && PixelsOver(out, chosen, i, n) !! Pixels(out[n].rect)
  }

  lemma {:induction false} AreaIsPixelCount(out: seq<RectSet>, chosen: seq<bool>, i: nat, n: nat)
    requires n <= |out| == |chosen|
    requires forall m :: 0 <= m < n ==> FreshRegion(out, chosen, i, m)
    ensures |PixelsOver(out, chosen, i, n)| == AreaOver(out, chosen, i, n)
  {
    if n > 0 {
      AreaIsPixelCount(out, chosen, i, n - 1);
      assert FreshRegion(out, chosen, i, n - 1);
      AreaCountsPixels(out[n - 1].rect);
      DisjointUnionSize(PixelsOver(out, chosen, i, n - 1), Pixels(out[n - 1].rect));
    }
  }

  lemma {:induction false} SubsetSize<T>(a: set<T>, b: set<T>)
    requires a <= b
    ensures |a| <= |b|
    ensures a != b ==> |a| < |b|
  {
    assert b == a + (b - a);
  }

  lemma {:induction false} FilledIsInside(input: seq<Rect>, out: seq<RectSet>, chosen: seq<bool>, i: nat)
    requires Separates(input, out) && |out| == |chosen| && i < |input|
    ensures PixelsOver(out, chosen, i, |out|) <= Pixels(input[i])
  {
    forall p | p in PixelsOver(out, chosen, i, |out|)
      ensures p in Pixels(input[i])
    {
      InPixelsOver(out, chosen, i, |out|, p);
      InPixels(input[i], p);
      assert i in IdsAt(input, p);
    }
  }

  lemma {:induction false} AllFresh(input: seq<Rect>, out: seq<RectSet>, chosen: seq<bool>, i: nat)
    requires Separates(input, out) && |out| == |chosen|
    ensures |PixelsOver(out, chosen, i, |out|)| == AreaOver(out, chosen, i, |out|)
  {
    forall m | 0 <= m < |out|
      ensures FreshRegion(out, chosen, i, m)
    {
      RegionIsFresh(input, out, chosen, i, m);
    }
    AreaIsPixelCount(out, chosen, i, |out|);
  }

  /** When every region over an input is chosen, their areas add up to the area of the input. */
  lemma {:induction false} AllChosenFillInput(input: seq<Rect>, out: seq<RectSet>, chosen: seq<bool>, i: nat)
    requires Separates(input, out) && |out| == |chosen|
    requires i < |input| && !input[i].Empty()
    requires forall k :: 0 <= k < |out| && i in out[k].ids ==> chosen[k]
    ensures AreaOver(out, chosen, i, |out|) == input[i].Area()
  {
    AllFresh(input, out, chosen, i);
    AreaCountsPixels(input[i]);
    FilledIsInside(input, out, chosen, i);
    forall p | p in Pixels(input[i])
      ensures p in PixelsOver(out, chosen, i, |out|)
    {
      InPixels(input[i], p);
      assert i in IdsAt(input, p);
      var k :| 0 <= k < |out| && out[k].rect.Contains(p);
      assert ChosenOver(out, chosen, i, k, p);
      InPixelsOver(out, chosen, i, |out|, p);
    }
    assert PixelsOver(out, chosen, i, |out|) == Pixels(input[i]);
  }

  /** A region that is not chosen leaves a pixel of its inputs unfilled. */
  lemma {:induction false} CornerIsMissing(input: seq<Rect>, out: seq<RectSet>, chosen: seq<bool>, i: nat, k: nat)
    requires Separates(input, out) && |out| == |chosen|
    requires i < |input| && k < |out| && i in out[k].ids && !chosen[k]
    ensures PixelsOver(out, chosen, i, |out|) != Pixels(input[i])
  {
    var corner := Point(out[k].rect.left, out[k].rect.top);
    assert out[k].rect.Contains(corner);
    assert i in IdsAt(input, corner);
    InPixels(input[i], corner);
    InPixelsOver(out, chosen, i, |out|, corner);
    forall j | 0 <= j < |out|
      ensures !ChosenOver(out, chosen, i, j, corner)
    {
      assert j < k ==> !out[j].rect.Contains(corner);
      assert k < j ==> !out[j].rect.Contains(corner);
    }
  }

  /** One region over an input that is not chosen leaves the added area short. */
  lemma {:induction false} OneMissingFallsShort(input: seq<Rect>, out: seq<RectSet>, chosen: seq<bool>, i: nat, k: nat)
    requires Separates(input, out) && |out| == |chosen|
    requires i < |input| && !input[i].Empty()
    requires k < |out| && i in out[k].ids && !chosen[k]
    ensures AreaOver(out, chosen, i, |out|) < input[i].Area()
  {
    AllFresh(input, out, chosen, i);
    AreaCountsPixels(input[i]);
    FilledIsInside(input, out, chosen, i);
    CornerIsMissing(input, out, chosen, i, k);
    SubsetSize(PixelsOver(out, chosen, i, |out|), Pixels(input[i]));
  }

  /** Outside the chosen regions, the area of every input over a point is not filled. */
  lemma {:induction false} UncoveredFallsShort(input: seq<Rect>, out: seq<RectSet>, chosen: seq<bool>, i: nat, p: Point)
    requires Separates(input, out) && |out| == |chosen|
    requires i < |input| && input[i].Contains(p)
    requires forall k :: 0 <= k < |out| && chosen[k] ==> !out[k].rect.Contains(p)
    ensures AreaOver(out, chosen, i, |out|) < input[i].Area()
  {
    assert i in IdsAt(input, p);
    var k :| 0 <= k < |out| && out[k].rect.Contains(p);
    assert i in out[k].ids;
    OneMissingFallsShort(input, out, chosen, i, k);
  }
}
