/** Which layers the precomposition renders where, so that dedicated planes below it stay visible. */
module HolePunch {
  import opened Geometry
  import opened SeparateRects
  import opened CompositionTypes

  const INT_BITS: nat := 32

  ghost predicate Excluded(exclude: seq<Rect>, p: Point) {
    exists e :: e in exclude && e.Contains(p)
  }

  ghost predicate Covers(frames: seq<Rect>, i: nat, p: Point) {
    i < |frames| && frames[i].Contains(p)
  }

  /**
   * Layer `i` belongs in the precomposition at `p`: it covers `p` and is not below a dedicated layer that covers `p`.
   */
  ghost predicate ShownByPrecomp(frames: seq<Rect>, dedicated: seq<nat>, comp: seq<nat>, p: Point, i: nat) {
    && i in comp && Covers(frames, i, p)
    && forall d :: d in dedicated && Covers(frames, d, p) ==> d <= i
  }

  /**
   * The promise about precomposition regions: they are disjoint, stay out of the excluded rectangles, and at every
   * other point list, from the top down, exactly the layers the precomposition has to show there.
   */
  ghost predicate Punched(frames: seq<Rect>, exclude: seq<Rect>, dedicated: seq<nat>, comp: seq<nat>,
                          regions: seq<CompositionRegion>) {
    && (forall k :: 0 <= k < |regions| ==>
          !regions[k].frame.Empty() && regions[k].sources != [] && Descending(regions[k].sources))
    && (forall j, k, p :: 0 <= j < k < |regions| && regions[j].frame.Contains(p) ==> !regions[k].frame.Contains(p))
    && (forall k, p :: 0 <= k < |regions| && regions[k].frame.Contains(p) ==>
          && !Excluded(exclude, p)
          && forall i :: i in regions[k].sources <==> ShownByPrecomp(frames, dedicated, comp, p, i))
    && (forall p, i :: !Excluded(exclude, p) && ShownByPrecomp(frames, dedicated, comp, p, i) ==>
          exists k :: 0 <= k < |regions| && regions[k].frame.Contains(p))
  }

  // ----- bit sets -----

  /** The bits from `offset` up, moved down to bit 0. */
  function ShiftedDown(ids: set<nat>, offset: nat): (r: set<nat>)
    ensures forall j: nat :: j in r <==> j + offset in ids
  {
    set i | i in ids && i >= offset :: i - offset
  }

  /** The 64-bit pattern of the 32-bit expression `1 << k`: bit 31 is the sign and is extended. */
  function IntBit(k: nat): set<nat>
    requires k < INT_BITS
  {
    if k < INT_BITS - 1 then {k} else set b: nat | b < 64 && IsSignExtension(b)
  }

  predicate IsSignExtension(b: nat) {
    b >= INT_BITS - 1
  }

  /** On bits of the low word, masking with `1 << k` tests bit `k` alone. */
  lemma {:induction false} TestsOneBit(bits: set<nat>, k: nat)
    requires k < INT_BITS && forall b :: b in bits ==> b < INT_BITS
    ensures bits * IntBit(k) == {} <==> k !in bits
  {
    assert k in IntBit(k);
    if k in bits {
      assert k in bits * IntBit(k);
    }
  }

  function PickDown(indexMap: seq<nat>, bits: set<nat>, n: nat): seq<nat>
    requires n <= |indexMap|
  {
    if n == 0 then [] else (if n - 1 in bits then [indexMap[n - 1]] else []) + PickDown(indexMap, bits, n - 1)
  }

  ghost predicate Picked(indexMap: seq<nat>, bits: set<nat>, n: nat, e: nat)
    requires n <= |indexMap|
  {
    exists j :: 0 <= j < n && j in bits && indexMap[j] == e
  }

  lemma {:induction false} PickDownMember(indexMap: seq<nat>, bits: set<nat>, n: nat, e: nat)
    requires n <= |indexMap|
    ensures e in PickDown(indexMap, bits, n) <==> Picked(indexMap, bits, n, e)
  {
    if n > 0 {
      PickDownMember(indexMap, bits, n - 1, e);
      assert Picked(indexMap, bits, n, e) <==>
               Picked(indexMap, bits, n - 1, e) || (n - 1 in bits && indexMap[n - 1] == e);
    }
  }

  lemma {:induction false} PickDownDescends(indexMap: seq<nat>, bits: set<nat>, n: nat)
    requires n <= |indexMap| && Ascending(indexMap)
    ensures Descending(PickDown(indexMap, bits, n))
  {
    if n > 0 {
      PickDownDescends(indexMap, bits, n - 1);
      var rest := PickDown(indexMap, bits, n - 1);
      forall k | 0 <= k < |rest|
        ensures rest[k] < indexMap[n - 1]
      {
        PickDownMember(indexMap, bits, n - 1, rest[k]);
      }
    }
  }

  lemma {:induction false} PickDownMembers(indexMap: seq<nat>, bits: set<nat>, n: nat)
    requires n <= |indexMap| && Ascending(indexMap)
    ensures Descending(PickDown(indexMap, bits, n))
    ensures forall e :: e in PickDown(indexMap, bits, n) <==> Picked(indexMap, bits, n, e)
  {
    PickDownDescends(indexMap, bits, n);
    forall e
      ensures e in PickDown(indexMap, bits, n) <==> Picked(indexMap, bits, n, e)
    {
      PickDownMember(indexMap, bits, n, e);
    }
  }

  /** The mapped indices of the set bits, highest bit first. */
  method SetBitsToVector(bits: set<nat>, indexMap: seq<nat>) returns (out: seq<nat>)
    requires |indexMap| <= 64 && forall b :: b in bits ==> b < |indexMap|
    ensures out == PickDown(indexMap, bits, |indexMap|)
  {
    out := [];
    var i := 64;
    while i > 0
      invariant 0 <= i <= 64
      invariant out + PickDown(indexMap, bits, if i < |indexMap| then i else |indexMap|) ==
                  PickDown(indexMap, bits, |indexMap|)
    {
      i := i - 1;
      if i in bits {
        out := out + [indexMap[i]];
      }
    }
  }

  // ----- one separated region -----

  /** The bits of the precomposition layers that lie below a dedicated layer present in `ids`. */
  ghost predicate Hidden(ids: set<nat>, dedicated: seq<nat>, comp: seq<nat>, numExclude: nat, n: nat, j: nat)
    requires n <= |dedicated|
  {
    j < |comp| && exists i :: 0 <= i < n && i + numExclude in ids && comp[j] < dedicated[i]
  }

  ghost predicate LeftOver(ids: set<nat>, dedicated: seq<nat>, comp: seq<nat>, numExclude: nat, left: set<nat>) {
    && left <= ids
    && (forall b :: b in ids && b < numExclude + |dedicated| ==> b in left)
    && (forall j: nat :: j + numExclude + |dedicated| in ids ==>
          (j + numExclude + |dedicated| in left <==> !Hidden(ids, dedicated, comp, numExclude, |dedicated|, j)))
  }

  /** No shift in the separation reaches the width of its word: 32 bits for the test of one bit, 64 elsewhere. */
  predicate ShiftsDefined(numExclude: nat, numDedicated: nat) {
    numExclude + numDedicated < MAX_ELEMENTS && (numDedicated == 0 || numExclude + numDedicated <= INT_BITS)
  }

  /** Drops the bits of hidden layers; a test of one bit by a shift that is not defined may answer anything. */
  method RemoveHidden(ids: set<nat>, dedicated: seq<nat>, comp: seq<nat>, numExclude: nat) returns (left: set<nat>)
    ensures left <= ids
    ensures ShiftsDefined(numExclude, |dedicated|) ==> LeftOver(ids, dedicated, comp, numExclude, left)
  {
    var layerOffset := numExclude + |dedicated|;
    var dedicatedIntersect := set b | b in ids && numExclude <= b < layerOffset;
    left := ids;
    var i := 0;
    while dedicatedIntersect != {} && i < |dedicated|
      invariant i <= |dedicated| && left <= ids
      invariant ShiftsDefined(numExclude, |dedicated|) ==> LeftAfter(ids, dedicated, comp, numExclude, i, left)
    {
      var misses: bool := *;
      if i + numExclude < INT_BITS {
        misses := dedicatedIntersect * IntBit(i + numExclude) == {};
      }
      ghost var before := left;
      if !misses {
        left := SubtractBelow(left, dedicated[i], comp, layerOffset);
      }
      if ShiftsDefined(numExclude, |dedicated|) {
        TestsOneBit(dedicatedIntersect, i + numExclude);
        OneMoreDedicated(ids, dedicated, comp, numExclude, i, misses, before, left);
      }
      i := i + 1;
    }
    if dedicatedIntersect == {} {
      forall b | b in ids
        ensures !(numExclude <= b < layerOffset)
      {
        assert b in dedicatedIntersect <==> numExclude <= b < layerOffset;
      }
    }
  }

  /** What is left once the first `n` dedicated layers have been looked at. */
  ghost predicate LeftAfter(ids: set<nat>, dedicated: seq<nat>, comp: seq<nat>, numExclude: nat, n: nat, left: set<nat>)
    requires n <= |dedicated|
  {
    var layerOffset := numExclude + |dedicated|;
    forall b :: b in left <==>
      b in ids && !(b >= layerOffset && Hidden(ids, dedicated, comp, numExclude, n, b - layerOffset))
  }

  /** The bits without those of the precomposition layers below `top`. */
  method SubtractBelow(bits: set<nat>, top: nat, comp: seq<nat>, layerOffset: nat) returns (left: set<nat>)
    ensures forall b :: b in left <==>
              b in bits && !(layerOffset <= b < layerOffset + |comp| && comp[b - layerOffset] < top)
  {
    left := bits;
    for j := 0 to |comp|
      invariant forall b :: b in left <==>
                  b in bits && !(layerOffset <= b < layerOffset + j && comp[b - layerOffset] < top)
    {
      if comp[j] < top {
        left := left - {j + layerOffset};
      }
    }
  }

  lemma {:induction false} OneMoreDedicated(ids: set<nat>, dedicated: seq<nat>, comp: seq<nat>, numExclude: nat, i: nat,
                                            misses: bool, before: set<nat>, left: set<nat>)
    requires i < |dedicated| && LeftAfter(ids, dedicated, comp, numExclude, i, before)
    requires misses <==> i + numExclude !in ids
    requires misses ==> left == before
    requires var layerOffset := numExclude + |dedicated|;
             !misses ==> forall b :: b in left <==>
               b in before && !(layerOffset <= b < layerOffset + |comp| && comp[b - layerOffset] < dedicated[i])
    ensures LeftAfter(ids, dedicated, comp, numExclude, i + 1, left)
  {
    var layerOffset := numExclude + |dedicated|;
    forall j: nat
      ensures Hidden(ids, dedicated, comp, numExclude, i + 1, j)
         <==> Hidden(ids, dedicated, comp, numExclude, i, j) || (!misses && j < |comp| && comp[j] < dedicated[i])
    {
    }
  }

  /** The rectangles handed to the separation: excluded ones, dedicated layers, precomposition layers. */
  ghost predicate LayerRects(frames: seq<Rect>, exclude: seq<Rect>, dedicated: seq<nat>, comp: seq<nat>,
                             rects: seq<Rect>) {
    && |rects| == |exclude| + |dedicated| + |comp|
    && (forall i :: 0 <= i < |dedicated| ==> dedicated[i] < |frames|)
    && (forall j :: 0 <= j < |comp| ==> comp[j] < |frames|)
    && (forall b :: 0 <= b < |exclude| ==> rects[b] == exclude[b])
    && (forall i :: 0 <= i < |dedicated| ==> rects[|exclude| + i] == frames[dedicated[i]])
    && (forall j :: 0 <= j < |comp| ==> rects[|exclude| + |dedicated| + j] == frames[comp[j]])
  }

  lemma {:induction false} HiddenMeansBelow(frames: seq<Rect>, exclude: seq<Rect>, dedicated: seq<nat>, comp: seq<nat>,
                                            rects: seq<Rect>, p: Point, j: nat)
    requires LayerRects(frames, exclude, dedicated, comp, rects) && j < |comp|
    ensures Hidden(IdsAt(rects, p), dedicated, comp, |exclude|, |dedicated|, j)
       <==> exists d :: d in dedicated && Covers(frames, d, p) && comp[j] < d
  {
    var ids := IdsAt(rects, p);
    forall m | 0 <= m < |dedicated|
      ensures m + |exclude| in ids <==> Covers(frames, dedicated[m], p)
    {
      assert rects[|exclude| + m] == frames[dedicated[m]];
    }
    if d :| d in dedicated && Covers(frames, d, p) && comp[j] < d {
      var m :| 0 <= m < |dedicated| && dedicated[m] == d;
      assert m + |exclude| in ids;
    }
  }

  /** What is left of the bits over a point, once hidden layers are dropped, names the layers to show there. */
  lemma {:induction false} BitsNameLayers(frames: seq<Rect>, exclude: seq<Rect>, dedicated: seq<nat>, comp: seq<nat>,
                                          rects: seq<Rect>, p: Point, left: set<nat>, i: nat)
    requires LayerRects(frames, exclude, dedicated, comp, rects)
    requires LeftOver(IdsAt(rects, p), dedicated, comp, |exclude|, left)
    ensures (exists j :: 0 <= j < |comp| && j in ShiftedDown(left, |exclude| + |dedicated|) && comp[j] == i)
       <==> ShownByPrecomp(frames, dedicated, comp, p, i)
  {
    var offset := |exclude| + |dedicated|;
    forall j | 0 <= j < |comp| && comp[j] == i
      ensures j in ShiftedDown(left, offset) <==> ShownByPrecomp(frames, dedicated, comp, p, i)
    {
      assert j + offset in IdsAt(rects, p) <==> Covers(frames, i, p) by {
        assert rects[offset + j] == frames[comp[j]];
      }
      HiddenMeansBelow(frames, exclude, dedicated, comp, rects, p, j);
    }
  }

  lemma {:induction false} ExcludedBits(frames: seq<Rect>, exclude: seq<Rect>, dedicated: seq<nat>, comp: seq<nat>,
                                        rects: seq<Rect>, p: Point)
    requires LayerRects(frames, exclude, dedicated, comp, rects)
    ensures Excluded(exclude, p) <==> exists b :: b in IdsAt(rects, p) && b < |exclude|
  {
    if Excluded(exclude, p) {
      var e :| e in exclude && e.Contains(p);
      var b :| 0 <= b < |exclude| && exclude[b] == e;
      assert b in IdsAt(rects, p);
    }
  }

  /** What becomes of one separated rectangle: it is skipped, or listed with the layers to show in it. */
  ghost predicate RegionDone(frames: seq<Rect>, exclude: seq<Rect>, dedicated: seq<nat>, comp: seq<nat>, rect: Rect,
                             keep: bool, sources: seq<nat>) {
    forall p :: rect.Contains(p) ==>
      if keep then
        !Excluded(exclude, p) && forall i :: i in sources <==> ShownByPrecomp(frames, dedicated, comp, p, i)
      else
        Excluded(exclude, p) || forall i :: !ShownByPrecomp(frames, dedicated, comp, p, i)
  }

  ghost predicate SourcesFrom(comp: seq<nat>, sources: seq<nat>) {
    sources != [] && Descending(sources) && forall i :: i in sources ==> i in comp
  }

  method PunchRegion(frames: seq<Rect>, ghost exclude: seq<Rect>, numExclude: nat, dedicated: seq<nat>, comp: seq<nat>,
                     ghost rects: seq<Rect>, region: RectSet) returns (keep: bool, sources: seq<nat>)
    requires numExclude == |exclude|
    requires LayerRects(frames, exclude, dedicated, comp, rects) && |comp| <= 64 && Ascending(comp)
    requires forall p :: region.rect.Contains(p) ==> region.ids == IdsAt(rects, p)
    requires forall b :: b in region.ids ==> b < |rects|
    ensures keep ==> SourcesFrom(comp, sources)
    ensures ShiftsDefined(numExclude, |dedicated|) ==>
              RegionDone(frames, exclude, dedicated, comp, region.rect, keep, sources)
  {
    sources := [];
    if exists b :: b in region.ids && b < numExclude {
      forall p | region.rect.Contains(p)
        ensures Excluded(exclude, p)
      {
        ExcludedBits(frames, exclude, dedicated, comp, rects, p);
      }
      return false, [];
    }
    var left := RemoveHidden(region.ids, dedicated, comp, numExclude);
    var shifted := ShiftedDown(left, numExclude + |dedicated|);
    if shifted != {} {
      sources := SetBitsToVector(shifted, comp);
      PickedSources(comp, shifted, sources);
    }
    keep := shifted != {};
    if ShiftsDefined(numExclude, |dedicated|) {
      RegionIsDone(frames, exclude, dedicated, comp, rects, region, left, keep, sources);
    }
  }

  lemma {:induction false} PickedSources(comp: seq<nat>, bits: set<nat>, sources: seq<nat>)
    requires Ascending(comp) && sources == PickDown(comp, bits, |comp|) && bits != {}
             && forall b :: b in bits ==> b < |comp|
    ensures SourcesFrom(comp, sources)
    ensures forall i :: i in sources <==> Picked(comp, bits, |comp|, i)
  {
    PickDownMembers(comp, bits, |comp|);
    var bit :| bit in bits;
    assert comp[bit] in sources;
  }

  lemma {:induction false} RegionIsDone(frames: seq<Rect>, exclude: seq<Rect>, dedicated: seq<nat>, comp: seq<nat>,
                                        rects: seq<Rect>, region: RectSet, left: set<nat>, keep: bool,
                                        sources: seq<nat>)
    requires LayerRects(frames, exclude, dedicated, comp, rects)
             && LeftOver(region.ids, dedicated, comp, |exclude|, left)
    requires forall p :: region.rect.Contains(p) ==> region.ids == IdsAt(rects, p)
    requires !exists b :: b in region.ids && b < |exclude|
    requires keep <==> ShiftedDown(left, |exclude| + |dedicated|) != {}
    requires keep ==> forall i :: i in sources <==> Picked(comp, ShiftedDown(left, |exclude| + |dedicated|), |comp|, i)
    ensures RegionDone(frames, exclude, dedicated, comp, region.rect, keep, sources)
  {
    hide LayerRects, LeftOver, ShownByPrecomp;
    var shifted := ShiftedDown(left, |exclude| + |dedicated|);
    forall p | region.rect.Contains(p)
      ensures !Excluded(exclude, p)
    {
      ExcludedBits(frames, exclude, dedicated, comp, rects, p);
    }
    forall p, i | region.rect.Contains(p)
      ensures ShownByPrecomp(frames, dedicated, comp, p, i) <==> keep && i in sources
    {
      BitsNameLayers(frames, exclude, dedicated, comp, rects, p, left, i);
      assert Picked(comp, shifted, |comp|, i) <==> ShownByPrecomp(frames, dedicated, comp, p, i);
    }
  }

  ghost predicate BitsInRange(rects: seq<Rect>, regions: seq<RectSet>) {
    forall k, b :: 0 <= k < |regions| && b in regions[k].ids ==> b < |rects|
  }

  lemma {:induction false} SeparatedBitsInRange(rects: seq<Rect>, regions: seq<RectSet>)
    requires Separates(rects, regions)
    ensures BitsInRange(rects, regions)
  {
    forall k, b | 0 <= k < |regions| && b in regions[k].ids
      ensures b < |rects|
    {
      var corner := Point(regions[k].rect.left, regions[k].rect.top);
      assert !regions[k].rect.Empty();
      assert regions[k].rect.Contains(corner);
      assert b in IdsAt(rects, corner);
    }
  }

  /** The regions kept so far, with the separated rectangles they come from, and those skipped. */
  ghost predicate PunchedUpTo(frames: seq<Rect>, exclude: seq<Rect>, dedicated: seq<nat>, comp: seq<nat>,
                              separate: seq<RectSet>, regions: seq<CompositionRegion>, origin: seq<nat>, n: nat)
    requires n <= |separate|
  {
    && |origin| == |regions| && Ascending(origin)
    && (forall m :: 0 <= m < |regions| ==>
          && origin[m] < n && regions[m].frame == separate[origin[m]].rect
          && RegionDone(frames, exclude, dedicated, comp, regions[m].frame, true, regions[m].sources))
    && (forall j :: 0 <= j < n && j !in origin ==>
          RegionDone(frames, exclude, dedicated, comp, separate[j].rect, false, []))
  }

  ghost predicate AllSourcesFrom(comp: seq<nat>, regions: seq<CompositionRegion>) {
    forall k :: 0 <= k < |regions| ==> SourcesFrom(comp, regions[k].sources)
  }

  lemma {:induction false} OneMoreRegion(frames: seq<Rect>, exclude: seq<Rect>, dedicated: seq<nat>, comp: seq<nat>,
                                         separate: seq<RectSet>, regions: seq<CompositionRegion>, origin: seq<nat>,
                                         k: nat, keep: bool, sources: seq<nat>)
    requires k < |separate| && PunchedUpTo(frames, exclude, dedicated, comp, separate, regions, origin, k)
    requires RegionDone(frames, exclude, dedicated, comp, separate[k].rect, keep, sources)
    ensures keep ==> PunchedUpTo(frames, exclude, dedicated, comp, separate,
                                 regions + [CompositionRegion(separate[k].rect, sources)], origin + [k], k + 1)
    ensures !keep ==> PunchedUpTo(frames, exclude, dedicated, comp, separate, regions, origin, k + 1)
  {
    hide Excluded, ShownByPrecomp;
    assert forall j :: j in origin + [k] <==> j in origin || j == k;
    if !keep {
      assert RegionDone(frames, exclude, dedicated, comp, separate[k].rect, false, []);
    }
  }

  /** The precomposition regions for rectangles already known to be separable. */
  method PunchRegions(frames: seq<Rect>, exclude: seq<Rect>, dedicated: seq<nat>, comp: seq<nat>, rects: seq<Rect>)
    returns (regions: seq<CompositionRegion>)
    requires LayerRects(frames, exclude, dedicated, comp, rects) && |rects| <= MAX_ELEMENTS && Ascending(comp)
    ensures AllSourcesFrom(comp, regions)
    ensures ShiftsDefined(|exclude|, |dedicated|) ==> Punched(frames, exclude, dedicated, comp, regions)
  {
    assert |comp| <= MAX_ELEMENTS;
    hide RegionDone, LayerRects, SourcesFrom, PunchedUpTo, ShiftsDefined, Ascending, Separates;
    ghost var defined := ShiftsDefined(|exclude|, |dedicated|);
    var separate := SeparateRects64(rects);
    SeparatedBitsInRange(rects, separate);
    SeparatedIds(rects, separate);
    regions := [];
    ghost var origin: seq<nat> := [];
    NothingPunched(frames, exclude, dedicated, comp, separate);
    for k := 0 to |separate|
      invariant AllSourcesFrom(comp, regions)
      invariant defined ==> PunchedUpTo(frames, exclude, dedicated, comp, separate, regions, origin, k)
    {
      var keep, sources := PunchRegion(frames, exclude, |exclude|, dedicated, comp, rects, separate[k]);
      if defined {
        OneMoreRegion(frames, exclude, dedicated, comp, separate, regions, origin, k, keep, sources);
      }
      if keep {
        regions := regions + [CompositionRegion(separate[k].rect, sources)];
        origin := origin + [k];
      }
    }
    if defined {
      RegionsCoverWanted(frames, exclude, dedicated, comp, rects, separate, regions, origin);
    }
  }

  lemma {:induction false} NothingPunched(frames: seq<Rect>, exclude: seq<Rect>, dedicated: seq<nat>, comp: seq<nat>,
                                          separate: seq<RectSet>)
    ensures PunchedUpTo(frames, exclude, dedicated, comp, separate, [], [], 0)
  {
  }

  lemma {:induction false} SeparatedIds(rects: seq<Rect>, regions: seq<RectSet>)
    requires Separates(rects, regions)
    ensures forall k, p :: 0 <= k < |regions| && regions[k].rect.Contains(p) ==> regions[k].ids == IdsAt(rects, p)
  {
  }

  lemma {:induction false} RegionsCoverWanted(frames: seq<Rect>, exclude: seq<Rect>, dedicated: seq<nat>,
                                              comp: seq<nat>, rects: seq<Rect>, separate: seq<RectSet>,
                                              regions: seq<CompositionRegion>, origin: seq<nat>)
    requires LayerRects(frames, exclude, dedicated, comp, rects) && Separates(rects, separate)
    requires PunchedUpTo(frames, exclude, dedicated, comp, separate, regions, origin, |separate|)
             && AllSourcesFrom(comp, regions)
    ensures Punched(frames, exclude, dedicated, comp, regions)
  {
    hide Excluded, Descending;
    forall p, i | !Excluded(exclude, p) && ShownByPrecomp(frames, dedicated, comp, p, i)
      ensures exists k :: 0 <= k < |regions| && regions[k].frame.Contains(p)
    {
      var n :| 0 <= n < |comp| && comp[n] == i;
      assert rects[|exclude| + |dedicated| + n].Contains(p);
      assert |exclude| + |dedicated| + n in IdsAt(rects, p);
      var j :| 0 <= j < |separate| && separate[j].rect.Contains(p);
      assert j in origin;
    }
    hide ShownByPrecomp;
    forall m, n, p | 0 <= m < n < |regions| && regions[m].frame.Contains(p)
      ensures !regions[n].frame.Contains(p)
    {
      assert origin[m] < origin[n];
    }
  }
}
