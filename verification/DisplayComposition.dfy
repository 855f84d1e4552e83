/** One frame on one display: squash what is stable, plan the rest, punch holes, assign release fences. */
module DisplayComposition {
  import opened Geometry
  import opened SeparateRects
  import opened RegionArea
  import opened Layers
  import opened CompositionTypes
  import opened SquashStates
  import opened HolePunch
  import opened LayerStacks
  import opened PlanStages
  import opened PlanLaws
  import opened PlanTheorems
  import opened PlanPlaces
  import opened CompositionLaws
  import opened ReleaseFences
  import Planner

  // ----- the squash part -----

  /** The layers a region refers to, top layer first. */
  function RefsDown(refs: set<nat>, n: nat): seq<nat> {
    if n == 0 then [] else (if n - 1 in refs then [n - 1] else []) + RefsDown(refs, n - 1)
  }

  function StableRects(regions: seq<Region>, stable: seq<bool>, n: nat): seq<Rect>
    requires n <= |regions| == |stable|
  {
    if n == 0 then [] else StableRects(regions, stable, n - 1) + if stable[n - 1] then [regions[n - 1].rect] else []
  }

  function SquashRegionsOf(regions: seq<Region>, stable: seq<bool>, n: nat, numLayers: nat): seq<CompositionRegion>
    requires n <= |regions| == |stable|
  {
    if n == 0 then []
    else SquashRegionsOf(regions, stable, n - 1, numLayers)
         + if stable[n - 1] then [CompositionRegion(regions[n - 1].rect, RefsDown(regions[n - 1].layerRefs, numLayers))]
           else []
  }

  lemma {:induction false} StableRectsExclude(regions: seq<Region>, stable: seq<bool>, n: nat, p: Point)
    requires n <= |regions| == |stable|
    ensures Excluded(StableRects(regions, stable, n), p) <==>
              exists k :: 0 <= k < n && stable[k] && regions[k].rect.Contains(p)
    ensures |StableRects(regions, stable, n)| <= n
  {
    if n > 0 {
      StableRectsExclude(regions, stable, n - 1, p);
      var rest, all := StableRects(regions, stable, n - 1), StableRects(regions, stable, n);
      assert forall e :: e in all <==> e in rest || (stable[n - 1] && e == regions[n - 1].rect);
    }
  }

  lemma {:induction false} RefsDownMembers(refs: set<nat>, n: nat)
    ensures Descending(RefsDown(refs, n))
    ensures forall i :: i in RefsDown(refs, n) <==> i in refs && i < n
  {
    if n > 0 {
      RefsDownMembers(refs, n - 1);
      var rest := RefsDown(refs, n - 1);
      assert forall k :: 0 <= k < |rest| ==> rest[k] in rest;
    }
  }

  ghost function AllLayers(n: nat): (r: set<nat>)
    ensures forall i: nat :: i in r <==> i < n
  {
    if n == 0 then {} else AllLayers(n - 1) + {n - 1}
  }

  /** A squash region rendered from a separated region shows the whole stack of layers over each of its pixels. */
  lemma {:induction false} SquashShowsStack(info: seq<Layer>, region: Region, p: Point)
    requires region.rect.Contains(p) && region.layerRefs == IdsAt(Frames(info), p)
    ensures Reversed(RefsDown(region.layerRefs, |info|)) == FullStack(Frames(info), AllLayers(|info|), p)
  {
    RefsDownMembers(region.layerRefs, |info|);
    ReversedMembers(RefsDown(region.layerRefs, |info|));
    FullStackMembers(Frames(info), AllLayers(|info|), p);
    AscendingUnique(Reversed(RefsDown(region.layerRefs, |info|)), FullStack(Frames(info), AllLayers(|info|), p));
  }

  /**
   * The regions rendered for the squash framebuffer: a pixel is in one of them exactly when it is in a stable region,
   * it is in one only, and that one lists the whole stack of layers there.
   */
  ghost predicate RenderedRight(layers: seq<Layer>, regions: seq<Region>, stable: seq<bool>,
                                rendered: seq<CompositionRegion>)
    requires |stable| == |regions|
  {
    && (forall p :: InRendered(rendered, p) <==> InStable(regions, stable, p))
    && (forall j, k, p :: 0 <= j < k < |rendered| && rendered[j].frame.Contains(p) ==>
          !rendered[k].frame.Contains(p))
    && (forall k, p :: 0 <= k < |rendered| && rendered[k].frame.Contains(p) ==>
          Reversed(rendered[k].sources) == FullStack(Frames(layers), AllLayers(|layers|), p))
  }

  ghost predicate InRendered(rendered: seq<CompositionRegion>, p: Point) {
    exists k :: 0 <= k < |rendered| && rendered[k].frame.Contains(p)
  }

  ghost predicate InStable(regions: seq<Region>, stable: seq<bool>, p: Point)
    requires |stable| == |regions|
  {
    exists k :: 0 <= k < |regions| && stable[k] && regions[k].rect.Contains(p)
  }

  /** Which stable regions the rendered ones come from, in order. */
  ghost predicate ComesFrom(regions: seq<Region>, stable: seq<bool>, n: nat, numLayers: nat,
                            rendered: seq<CompositionRegion>, origin: seq<nat>)
    requires n <= |regions| == |stable|
  {
    && |origin| == |rendered| && Ascending(origin)
    && (forall k :: 0 <= k < |origin| ==>
          && origin[k] < n && stable[origin[k]]
          && rendered[k] ==
               CompositionRegion(regions[origin[k]].rect, RefsDown(regions[origin[k]].layerRefs, numLayers)))
    && forall j :: 0 <= j < n && stable[j] ==> j in origin
  }

  lemma {:induction false} RenderedComesFrom(regions: seq<Region>, stable: seq<bool>, n: nat, numLayers: nat)
    returns (origin: seq<nat>)
    requires n <= |regions| == |stable|
    ensures ComesFrom(regions, stable, n, numLayers, SquashRegionsOf(regions, stable, n, numLayers), origin)
  {
    hide RefsDown, ComesFrom;
    if n == 0 {
      origin := [];
      NoneCome(regions, stable, numLayers);
    } else {
      origin := RenderedComesFrom(regions, stable, n - 1, numLayers);
      var rendered := SquashRegionsOf(regions, stable, n - 1, numLayers);
      if stable[n - 1] {
        OneMoreComes(regions, stable, n - 1, numLayers, rendered, origin);
        origin := origin + [n - 1];
      } else {
        NoMoreCome(regions, stable, n - 1, numLayers, rendered, origin);
        NoMoreRendered(rendered);
      }
    }
  }

  lemma {:induction false} NoneCome(regions: seq<Region>, stable: seq<bool>, numLayers: nat)
    requires |regions| == |stable|
    ensures ComesFrom(regions, stable, 0, numLayers, [], [])
  {
  }

  lemma {:induction false} OneMoreComes(regions: seq<Region>, stable: seq<bool>, n: nat, numLayers: nat,
                                        rendered: seq<CompositionRegion>, origin: seq<nat>)
    requires n < |regions| == |stable| && stable[n] && ComesFrom(regions, stable, n, numLayers, rendered, origin)
    ensures ComesFrom(regions, stable, n + 1, numLayers,
                      rendered + [CompositionRegion(regions[n].rect, RefsDown(regions[n].layerRefs, numLayers))],
                      origin + [n])
  {
    hide RefsDown;
    forall j | 0 <= j < n + 1 && stable[j]
      ensures j in origin + [n]
    {
      if j < n {
        assert j in origin;
      } else {
        assert (origin + [n])[|origin|] == n;
      }
    }
  }

  lemma {:induction false} NoMoreCome(regions: seq<Region>, stable: seq<bool>, n: nat, numLayers: nat,
                                      rendered: seq<CompositionRegion>, origin: seq<nat>)
    requires n < |regions| == |stable| && !stable[n] && ComesFrom(regions, stable, n, numLayers, rendered, origin)
    ensures ComesFrom(regions, stable, n + 1, numLayers, rendered, origin)
  {
    hide RefsDown;
  }

  lemma {:induction false} NoMoreRendered(rendered: seq<CompositionRegion>)
    ensures rendered + [] == rendered
  {
  }

  lemma {:induction false} RenderedIsRight(layers: seq<Layer>, regions: seq<Region>, stable: seq<bool>)
    requires Separates(Frames(layers), AsRectSets(regions)) && |stable| == |regions|
    ensures RenderedRight(layers, regions, stable, SquashRegionsOf(regions, stable, |regions|, |layers|))
  {
    var rendered := SquashRegionsOf(regions, stable, |regions|, |layers|);
    var origin := RenderedComesFrom(regions, stable, |regions|, |layers|);
    hide RefsDown, SquashRegionsOf, FullStack, Reversed;
    forall k, p | 0 <= k < |rendered| && rendered[k].frame.Contains(p)
      ensures Reversed(rendered[k].sources) == FullStack(Frames(layers), AllLayers(|layers|), p)
      ensures InStable(regions, stable, p)
    {
      RegionIsExact(layers, regions, origin[k], p);
      SquashShowsStack(layers, regions[origin[k]], p);
    }
    forall p, j | 0 <= j < |regions| && stable[j] && regions[j].rect.Contains(p)
      ensures InRendered(rendered, p)
    {
      var k :| 0 <= k < |origin| && origin[k] == j;
      assert rendered[k].frame == regions[j].rect;
    }
    forall j, k, p | 0 <= j < k < |rendered| && rendered[j].frame.Contains(p)
      ensures !rendered[k].frame.Contains(p)
    {
      RegionsDisjoint(layers, regions, origin[j], origin[k], p);
    }
  }

  lemma {:induction false} RegionIsExact(layers: seq<Layer>, regions: seq<Region>, j: nat, p: Point)
    requires Separates(Frames(layers), AsRectSets(regions)) && j < |regions| && regions[j].rect.Contains(p)
    ensures regions[j].layerRefs == IdsAt(Frames(layers), p)
  {
    assert AsRectSets(regions)[j].rect.Contains(p);
  }

  lemma {:induction false} RegionsDisjoint(layers: seq<Layer>, regions: seq<Region>, j: nat, k: nat, p: Point)
    requires Separates(Frames(layers), AsRectSets(regions)) && j < k < |regions| && regions[j].rect.Contains(p)
    ensures !regions[k].rect.Contains(p)
  {
    assert AsRectSets(regions)[j].rect.Contains(p) && AsRectSets(regions)[k].rect == regions[k].rect;
  }

  /** Adds the area of one stable region to every layer it refers to, top layer first. */
  method AddRegion(region: Region, render: bool, before: seq<int>) returns (areas: seq<int>, sources: seq<nat>)
    ensures |areas| == |before|
    ensures forall i :: 0 <= i < |areas| ==>
              areas[i] == before[i] + if i in region.layerRefs then region.rect.Area() else 0
    ensures sources == if render then RefsDown(region.layerRefs, |before|) else []
  {
    areas, sources := before, [];
    var frameArea := region.rect.Area();
    hide RefsDown, Rect.Area, SourcesDownTo;
    FirstSource(region.layerRefs, |before|, render);
    var i := |before|;
    while i > 0
      invariant 0 <= i <= |areas| == |before|
      invariant forall j :: 0 <= j < i ==> areas[j] == before[j]
      invariant forall j :: i <= j < |areas| ==> areas[j] == before[j] + if j in region.layerRefs then frameArea else 0
      invariant SourcesDownTo(region.layerRefs, |before|, i, render, sources)
    {
      i := i - 1;
      NextSource(region.layerRefs, |before|, i, render, sources);
      if i !in region.layerRefs {
        continue;
      }
      areas := areas[i := areas[i] + frameArea];
      if render {
        sources := sources + [i];
      }
    }
    LastSource(region.layerRefs, |before|, render, sources);
  }

  /** The sources of a region of `n` layers from the top down to layer `i`, or none when nothing is rendered. */
  ghost predicate SourcesDownTo(refs: set<nat>, n: nat, i: nat, render: bool, sources: seq<nat>) {
    if render then sources + RefsDown(refs, i) == RefsDown(refs, n) else sources == []
  }

  lemma {:induction false} FirstSource(refs: set<nat>, n: nat, render: bool)
    ensures SourcesDownTo(refs, n, n, render, [])
  {
    assert [] + RefsDown(refs, n) == RefsDown(refs, n);
  }

  lemma {:induction false} NextSource(refs: set<nat>, n: nat, i: nat, render: bool, above: seq<nat>)
    requires SourcesDownTo(refs, n, i + 1, render, above)
    ensures SourcesDownTo(refs, n, i, render, if render && i in refs then above + [i] else above)
  {
    NextRef(refs, i, above);
    hide RefsDown;
  }

  lemma {:induction false} LastSource(refs: set<nat>, n: nat, render: bool, sources: seq<nat>)
    requires SourcesDownTo(refs, n, 0, render, sources)
    ensures sources == if render then RefsDown(refs, n) else []
  {
    assert sources + RefsDown(refs, 0) == sources;
  }

  lemma {:induction false} NextRef(refs: set<nat>, i: nat, above: seq<nat>)
    ensures above + RefsDown(refs, i + 1) == if i in refs then above + [i] + RefsDown(refs, i)
                                             else above + RefsDown(refs, i)
  {
    var rest := RefsDown(refs, i);
    assert RefsDown(refs, i + 1) == (if i in refs then [i] else []) + rest;
    hide RefsDown;
    if i in refs {
      assert above + ([i] + rest) == above + [i] + rest;
    } else {
      assert [] + rest == rest;
    }
  }

  /** Exclusion rectangles, squashed area per layer, and the regions to render when a new rendering is due. */
  method CollectStable(regions: seq<Region>, stable: seq<bool>, render: bool, numLayers: nat)
    returns (exclude: seq<Rect>, areas: seq<int>, rendered: seq<CompositionRegion>)
    requires |regions| == |stable|
    ensures exclude == StableRects(regions, stable, |regions|)
    ensures |areas| == numLayers
            && forall i :: 0 <= i < numLayers ==> areas[i] == AreaOver(AsRectSets(regions), stable, i, |regions|)
    ensures rendered == if render then SquashRegionsOf(regions, stable, |regions|, numLayers) else []
  {
    exclude, areas, rendered := [], seq(numLayers, _ => 0), [];
    for k := 0 to |regions|
      invariant exclude == StableRects(regions, stable, k)
      invariant |areas| == numLayers
                && forall i :: 0 <= i < numLayers ==> areas[i] == AreaOver(AsRectSets(regions), stable, i, k)
      invariant rendered == if render then SquashRegionsOf(regions, stable, k, numLayers) else []
    {
      if !stable[k] {
        continue;
      }
      exclude := exclude + [regions[k].rect];
      var sources;
      areas, sources := AddRegion(regions[k], render, areas);
      if render {
        rendered := rendered + [CompositionRegion(regions[k].rect, sources)];
      }
    }
  }

  /** Some region over layer `i` is not stable. */
  ghost predicate TouchesUnstable(regions: seq<Region>, stable: seq<bool>, i: nat) {
    exists k :: 0 <= k < |regions| && k < |stable| && i in regions[k].layerRefs && !stable[k]
  }

  /** A layer of positive area is left out of the plan exactly when every region over it is stable. */
  lemma {:induction false} LeftOutIffAllStable(layers: seq<Layer>, regions: seq<Region>, stable: seq<bool>, i: nat)
    requires Separates(Frames(layers), AsRectSets(regions)) && |stable| == |regions|
    requires i < |layers| && !layers[i].frame.Empty()
    ensures AreaOver(AsRectSets(regions), stable, i, |regions|) < layers[i].frame.Area() <==>
              TouchesUnstable(regions, stable, i)
  {
    if TouchesUnstable(regions, stable, i) {
      var k :| 0 <= k < |regions| && k < |stable| && i in regions[k].layerRefs && !stable[k];
      OneMissingFallsShort(Frames(layers), AsRectSets(regions), stable, i, k);
    } else {
      AllChosenFillInput(Frames(layers), AsRectSets(regions), stable, i);
    }
  }

  lemma {:induction false} PositiveArea(r: Rect)
    requires !r.Empty()
    ensures r.Area() > 0
  {
  }

  // ----- the precomposition part -----

  function SourcesBelow(planes: seq<CompositionPlane>): seq<nat> {
    if planes == [] then []
    else SourcesBelow(planes[..|planes| - 1])
         + if planes[|planes| - 1].kind == LayerPlane then planes[|planes| - 1].sources else []
  }

  lemma {:induction false} SourcesBelowDedicated(ded: seq<CompositionPlane>)
    requires forall k :: 0 <= k < |ded| ==> ded[k].kind == LayerPlane && |ded[k].sources| == 1
    ensures SourcesBelow(ded) == SourceOf(ded)
  {
    if ded != [] {
      SourcesBelowDedicated(ded[..|ded| - 1]);
      assert SourceOf(ded) == SourceOf(ded[..|ded| - 1]) + ded[|ded| - 1].sources;
    }
  }

  lemma {:induction false} SquashRegionsInRange(regions: seq<Region>, stable: seq<bool>, n: nat, numLayers: nat, i: nat)
    requires n <= |regions| == |stable| && ReadBy(SquashRegionsOf(regions, stable, n, numLayers), i)
    ensures i < numLayers
  {
    var all := SquashRegionsOf(regions, stable, n, numLayers);
    var k :| 0 <= k < |all| && i in all[k].sources;
    var rest := SquashRegionsOf(regions, stable, n - 1, numLayers);
    if k < |rest| {
      assert all[k] == rest[k];
      assert ReadBy(rest, i);
      SquashRegionsInRange(regions, stable, n - 1, numLayers, i);
    } else {
      RefsDownMembers(regions[n - 1].layerRefs, numLayers);
    }
  }

  lemma {:induction false} SupportingSize(planes: seq<HwPlane>, crtc: nat)
    ensures |Planner.Supporting(planes, crtc)| <= |planes|
    ensures multiset(Planner.Supporting(planes, crtc)) <= multiset(planes)
  {
    if planes != [] {
      SupportingSize(planes[1..], crtc);
      assert planes == [planes[0]] + planes[1..];
    }
  }

  lemma {:induction false} UsableSplits(usable: seq<HwPlane>, useSquash: bool)
    ensures usable == Planner.ForLayers(usable, useSquash) + HardwareOf(Planner.SquashPart(usable, useSquash))
    ensures |Planner.ForLayers(usable, useSquash)| <= |usable|
  {
    if useSquash && usable != [] {
      assert HardwareOf(Planner.SquashPart(usable, useSquash)) == [usable[|usable| - 1]];
    } else {
      assert HardwareOf(Planner.SquashPart(usable, useSquash)) == [];
    }
  }

  function RemoveFirst(s: seq<HwPlane>, plane: HwPlane): seq<HwPlane> {
    if s == [] then [] else if s[0] == plane then s[1..] else [s[0]] + RemoveFirst(s[1..], plane)
  }

  lemma {:induction false} RemoveFirstContents(s: seq<HwPlane>, plane: HwPlane)
    ensures multiset(RemoveFirst(s, plane)) == multiset(s) - multiset{plane}
  {
    if s != [] {
      assert s == [s[0]] + s[1..];
      if s[0] != plane {
        RemoveFirstContents(s[1..], plane);
      }
    }
  }

  lemma {:induction false} RemoveFirstOrder(s: seq<HwPlane>, plane: HwPlane)
    ensures InPoolOrder(s, RemoveFirst(s, plane))
  {
    if s != [] {
      assert [s[0]] + s[1..] == s;
      if s[0] == plane {
        AllPlaces(s[1..]);
        OneMoreBelow(s[0], s[1..], s[1..]);
      } else {
        RemoveFirstOrder(s[1..], plane);
        OneMoreBelow(s[0], s[1..], RemoveFirst(s[1..], plane));
      }
    } else {
      AllPlaces(s);
    }
  }

  /** What is left in the pools is in the order in which it was. */
  ghost predicate PoolsInOrder(primary: seq<HwPlane>, overlay: seq<HwPlane>, primary': seq<HwPlane>,
                               overlay': seq<HwPlane>) {
    InPoolOrder(primary, primary') && InPoolOrder(overlay, overlay')
  }

  lemma {:induction false} PoolsStayInOrder(primary: seq<HwPlane>, overlay: seq<HwPlane>, primary': seq<HwPlane>,
                                            overlay': seq<HwPlane>, x: HwPlane)
    requires PoolsInOrder(primary, overlay, primary', overlay')
    ensures PoolsInOrder(primary, overlay, if x.isPrimary then RemoveFirst(primary', x) else primary',
                         if x.isPrimary then overlay' else RemoveFirst(overlay', x))
  {
    hide InPoolOrder, RemoveFirst;
    if x.isPrimary {
      RemoveFirstOrder(primary', x);
      WithinPool(primary, primary', RemoveFirst(primary', x));
    } else {
      RemoveFirstOrder(overlay', x);
      WithinPool(overlay, overlay', RemoveFirst(overlay', x));
    }
  }

  ghost predicate PoolsTyped(primary: seq<HwPlane>, overlay: seq<HwPlane>) {
    (forall x :: x in multiset(primary) ==> x.isPrimary) && forall x :: x in multiset(overlay) ==> !x.isPrimary
  }

  /** Nothing but the planes of the composition left the pools. */
  ghost predicate PoolsConserved(primary: seq<HwPlane>, overlay: seq<HwPlane>, used: seq<CompositionPlane>,
                                 primary': seq<HwPlane>, overlay': seq<HwPlane>) {
    multiset(primary') + multiset(overlay') + multiset(HardwareOf(used)) == multiset(primary) + multiset(overlay)
  }

  /** Sorts every plane's layers by z-order and takes the planes used out of the pools. */
  method TakeUsed(planes: seq<CompositionPlane>, primary: seq<HwPlane>, overlay: seq<HwPlane>)
    returns (sorted: seq<CompositionPlane>, primary': seq<HwPlane>, overlay': seq<HwPlane>)
    ensures sorted == WithSortedSources(planes)
    ensures PoolsInOrder(primary, overlay, primary', overlay')
    ensures PoolsTyped(primary, overlay) && multiset(HardwareOf(planes)) <= multiset(primary) + multiset(overlay) ==>
              PoolsConserved(primary, overlay, planes, primary', overlay')
  {
    primary', overlay', sorted := primary, overlay, [];
    AllPlaces(primary);
    AllPlaces(overlay);
    hide InPoolOrder;
    for k := 0 to |planes|
      invariant |sorted| == k && forall j :: 0 <= j < k ==> sorted[j] == planes[j].(sources := Sort(planes[j].sources))
      invariant PoolsInOrder(primary, overlay, primary', overlay')
      invariant PoolsTyped(primary, overlay)
                && multiset(HardwareOf(planes)) <= multiset(primary) + multiset(overlay) ==>
                  PoolsTyped(primary', overlay') && PoolsConserved(primary, overlay, planes[..k], primary', overlay')
    {
      sorted := sorted + [planes[k].(sources := Sort(planes[k].sources))];
      ghost var before, before' := primary', overlay';
      PoolsStayInOrder(primary, overlay, primary', overlay', planes[k].plane);
      if planes[k].plane.isPrimary {
        primary' := RemoveFirst(primary', planes[k].plane);
      } else {
        overlay' := RemoveFirst(overlay', planes[k].plane);
      }
      if PoolsTyped(primary, overlay) && multiset(HardwareOf(planes)) <= multiset(primary) + multiset(overlay) {
        OneMoreUsed(primary, overlay, planes, k, before, before');
      }
    }
    assert planes[..|planes|] == planes;
    assert sorted == WithSortedSources(planes);
  }

  lemma {:induction false} OneMoreUsed(primary: seq<HwPlane>, overlay: seq<HwPlane>, planes: seq<CompositionPlane>,
                                       k: nat, primary': seq<HwPlane>, overlay': seq<HwPlane>)
    requires k < |planes| && multiset(HardwareOf(planes)) <= multiset(primary) + multiset(overlay)
    requires PoolsTyped(primary', overlay') && PoolsConserved(primary, overlay, planes[..k], primary', overlay')
    ensures var x := planes[k].plane;
            var p := if x.isPrimary then RemoveFirst(primary', x) else primary';
            var o := if x.isPrimary then overlay' else RemoveFirst(overlay', x);
            PoolsTyped(p, o) && PoolsConserved(primary, overlay, planes[..k + 1], p, o)
  {
    HardwareSplits(planes, k);
    var x := planes[k].plane;
    RemoveFirstContents(primary', x);
    RemoveFirstContents(overlay', x);
    hide HardwareOf, RemoveFirst;
    TakeOne(multiset(primary'), multiset(overlay'), multiset(HardwareOf(planes[..k])), x,
            multiset(primary) + multiset(overlay));
  }

  lemma {:induction false} HardwareSplits(planes: seq<CompositionPlane>, k: nat)
    requires k < |planes|
    ensures multiset(HardwareOf(planes[..k + 1])) ==
              multiset(HardwareOf(planes[..k])) + multiset{planes[k].plane} <= multiset(HardwareOf(planes))
  {
    assert HardwareOf(planes[..k + 1]) == HardwareOf(planes[..k]) + [planes[k].plane];
    assert HardwareOf(planes) == HardwareOf(planes[..k + 1]) + HardwareOf(planes[k + 1..]);
  }

  /** A plane that is used once more is still in the pool of its type. */
  lemma {:induction false} TakeOne(p: multiset<HwPlane>, o: multiset<HwPlane>, used: multiset<HwPlane>, x: HwPlane,
                                   all: multiset<HwPlane>)
    requires (forall y :: y in p ==> y.isPrimary) && forall y :: y in o ==> !y.isPrimary
    requires p + o + used == all && used + multiset{x} <= all
    ensures if x.isPrimary then (p - multiset{x}) + o + (used + multiset{x}) == all
            else p + (o - multiset{x}) + (used + multiset{x}) == all
    ensures (forall y :: y in p - multiset{x} ==> y.isPrimary) && forall y :: y in o - multiset{x} ==> !y.isPrimary
  {
    assert all[x] == p[x] + o[x] + used[x];
    assert (used + multiset{x})[x] <= all[x];
    assert if x.isPrimary then o[x] == 0 else p[x] == 0;
  }

  /** The geometry the squash state was set up for. */
  ghost predicate SameGeometry(squash: SquashState, layers: seq<Layer>)
    reads squash
  {
    |squash.lastHandles| == |layers| && Frames(squash.base) == Frames(layers)
  }

  lemma {:induction false} RenderedInRange(regions: seq<Region>, stable: seq<bool>, numLayers: nat,
                                           rendered: seq<CompositionRegion>)
    requires |regions| == |stable|
    requires rendered == [] || rendered == SquashRegionsOf(regions, stable, |regions|, numLayers)
    ensures forall i: nat :: ReadBy([] + rendered, i) ==> i < numLayers
    ensures |StableRects(regions, stable, |regions|)| <= |regions|
  {
    StableRectsExclude(regions, stable, |regions|, Point(0, 0));
    assert [] + rendered == rendered;
    forall i: nat | ReadBy(rendered, i)
      ensures i < numLayers
    {
      SquashRegionsInRange(regions, stable, |regions|, numLayers, i);
    }
  }

  /** The squashed area of every layer. */
  ghost predicate AreasRight(regions: seq<Region>, stable: seq<bool>, areas: seq<int>, numLayers: nat)
    requires |stable| == |regions|
  {
    && |areas| == numLayers
    && forall i :: 0 <= i < numLayers ==> areas[i] == AreaOver(AsRectSets(regions), stable, i, |regions|)
  }

  /**
   * The area test keeps the layers over a region that is not stable,
   * and so every layer over a pixel outside the stable ones.
   */
  lemma {:induction false} PlannedExactly(layers: seq<Layer>, regions: seq<Region>, stable: seq<bool>, areas: seq<int>)
    requires Separates(Frames(layers), AsRectSets(regions)) && |stable| == |regions| && |areas| == |layers|
    requires forall i :: 0 <= i < |layers| ==> areas[i] == AreaOver(AsRectSets(regions), stable, i, |regions|)
    ensures forall i: nat :: i < |layers| && !layers[i].frame.Empty() ==>
              (areas[i] < layers[i].frame.Area() <==> TouchesUnstable(regions, stable, i))
    ensures forall p: Point, i: nat ::
              !Excluded(StableRects(regions, stable, |regions|), p) && Covers(Frames(layers), i, p) ==>
              areas[i] < layers[i].frame.Area()
  {
    hide Separates, AreaOver;
    forall i: nat | i < |layers| && !layers[i].frame.Empty()
      ensures areas[i] < layers[i].frame.Area() <==> TouchesUnstable(regions, stable, i)
    {
      LeftOutIffAllStable(layers, regions, stable, i);
    }
    forall p: Point, i: nat | !Excluded(StableRects(regions, stable, |regions|), p) && Covers(Frames(layers), i, p)
      ensures areas[i] < layers[i].frame.Area()
    {
      StableRectsExclude(regions, stable, |regions|, p);
      UncoveredFallsShort(Frames(layers), AsRectSets(regions), stable, i, p);
    }
  }

  lemma {:induction false} AllPositivePlanned(layers: seq<Layer>, areas: seq<int>)
    requires |areas| == |layers| && forall i :: 0 <= i < |layers| ==> areas[i] == 0
    ensures forall p: Point, i: nat :: Covers(Frames(layers), i, p) ==> areas[i] < layers[i].frame.Area()
  {
    forall p: Point, i: nat | Covers(Frames(layers), i, p)
      ensures areas[i] < layers[i].frame.Area()
    {
      PositiveArea(layers[i].frame);
    }
  }

  /** A region is stable when its layers have shown the same all along. */
  ghost predicate StableRight(base: seq<Layer>, frames: seq<seq<Layer>>, layers: seq<Layer>, regions: seq<Region>,
                              stable: seq<bool>) {
    |stable| == |regions|
      && forall k :: 0 <= k < |stable| ==> (stable[k] <==> StableIn(base, frames, layers, regions[k].layerRefs))
  }

  /**
   * The stable regions are excluded and shown from the squash framebuffer, and exactly the layers over a region that is
   * not stable are composited; of layers without an area nothing is said.
   */
  ghost predicate Decided(layers: seq<Layer>, regions: seq<Region>, stable: seq<bool>, exclude: seq<Rect>,
                          toComposite: seq<nat>, useSquash: bool)
    requires |stable| == |regions|
  {
    && exclude == StableRects(regions, stable, |stable|)
    && (useSquash <==> exists k :: 0 <= k < |stable| && stable[k])
    && forall i: nat :: i < |layers| && !layers[i].frame.Empty() ==>
         (i in toComposite <==> TouchesUnstable(regions, stable, i))
  }

  /** Every layer over a pixel outside the excluded regions takes part in the plan. */
  ghost predicate AllPlanned(layers: seq<Layer>, exclude: seq<Rect>, toComposite: seq<nat>) {
    forall p: Point, i: nat :: !Excluded(exclude, p) && Covers(Frames(layers), i, p) ==> i in toComposite
  }

  /** How planning a frame ended. */
  datatype Outcome = NoDevice | FenceFailed | Planned

  class DrmDisplayComposition {
    const crtc: nat
    const layers: seq<Layer>
    const geometryChanged: bool
    const timeline: Timeline
    var squashRegions: seq<CompositionRegion>
    var preCompRegions: seq<CompositionRegion>
    var compositionPlanes: seq<CompositionPlane>

    constructor (crtc: nat, layers: seq<Layer>, geometryChanged: bool)
      ensures this.crtc == crtc && this.layers == layers && this.geometryChanged == geometryChanged
      ensures squashRegions == [] && preCompRegions == [] && compositionPlanes == []
      ensures fresh(timeline) && timeline.last == timeline.current == timeline.squashDone == timeline.preCompDone == 0
      ensures timeline.fences == map[]
    {
      this.crtc, this.layers, this.geometryChanged := crtc, layers, geometryChanged;
      squashRegions, preCompRegions, compositionPlanes := [], [], [];
      timeline := new Timeline();
    }

    ghost function Dedicated(): seq<nat>
      reads this`compositionPlanes
    {
      SourcesBelow(compositionPlanes[..Planner.FindPrecomp(compositionPlanes)])
    }

    ghost predicate HasPrecomp()
      reads this`compositionPlanes
    {
      Planner.FindPrecomp(compositionPlanes) < |compositionPlanes|
    }

    ghost function CompLayers(): seq<nat>
      reads this`compositionPlanes
    {
      if HasPrecomp() then compositionPlanes[Planner.FindPrecomp(compositionPlanes)].sources else []
    }

    /** More rectangles than the separation can tell apart; it then yields nothing at all. */
    ghost predicate TooManyRects(exclude: seq<Rect>)
      reads this`compositionPlanes
    {
      |CompLayers()| > MAX_ELEMENTS || |exclude| + |Dedicated()| + |CompLayers()| > MAX_ELEMENTS
    }

    /** The position of the precomposition and the layers with a dedicated plane below it. */
    method FindLowerLayers() returns (comp: nat, dedicated: seq<nat>)
      ensures comp == Planner.FindPrecomp(compositionPlanes) && dedicated == Dedicated()
    {
      dedicated := [];
      comp := |compositionPlanes|;
      var k := 0;
      while k < |compositionPlanes|
        invariant k <= |compositionPlanes| && comp == |compositionPlanes|
        invariant k <= Planner.FindPrecomp(compositionPlanes)
        invariant dedicated == SourcesBelow(compositionPlanes[..k])
      {
        var plane := compositionPlanes[k];
        if plane.kind == Precomp {
          comp := k;
          break;
        }
        assert compositionPlanes[..k + 1][..k] == compositionPlanes[..k];
        if plane.kind == LayerPlane {
          dedicated := dedicated + plane.sources;
        }
        k := k + 1;
      }
    }

    /** No shift in the separation is undefined, and the count of exclusion rectangles is not cut down below zero. */
    ghost predicate SeparationDefined(exclude: seq<Rect>)
      reads this`compositionPlanes
    {
      HasPrecomp() && |CompLayers()| <= MAX_ELEMENTS ==>
        && |Dedicated()| + |CompLayers()| <= MAX_ELEMENTS
        && (!TooManyRects(exclude) ==>
              (Dedicated() == [] && |exclude| < 64) || |exclude| + |Dedicated()| <= 32)
    }

    method SeparateLayers(exclude: seq<Rect>)
      requires HasPrecomp() ==> forall i :: i in Dedicated() || i in CompLayers() ==> i < |layers|
      requires Ascending(CompLayers())
      modifies this`preCompRegions
      ensures old(preCompRegions) <= preCompRegions
      ensures !HasPrecomp() || TooManyRects(exclude) ==> preCompRegions == old(preCompRegions)
      ensures AllSourcesFrom(CompLayers(), preCompRegions[|old(preCompRegions)|..])
      ensures HasPrecomp() && !TooManyRects(exclude) && ShiftsDefined(|exclude|, |Dedicated()|) ==>
                Punched(Frames(layers), exclude, Dedicated(), CompLayers(), preCompRegions[|old(preCompRegions)|..])
    {
      hide Punched, Ascending, SourcesBelow, Planner.FindPrecomp, ShiftsDefined, SourcesFrom;
      var comp, dedicated := FindLowerLayers();
      if comp == |compositionPlanes| {
        return;
      }
      var compLayers := compositionPlanes[comp].sources;
      if |compLayers| > MAX_ELEMENTS {
        return;
      }
      if |dedicated| + |compLayers| > MAX_ELEMENTS {
        // The cut down count would be below zero: what happens is not defined.
        return;
      }
      var regions := SeparateAround(exclude, dedicated, compLayers);
      preCompRegions := preCompRegions + regions;
      assert preCompRegions[|old(preCompRegions)|..] == regions;
    }

    /**
     * Separates the rectangles of a precomposition; beyond the
     * limit the separation is given too many and yields nothing.
     */
    method SeparateAround(exclude: seq<Rect>, dedicated: seq<nat>, comp: seq<nat>)
      returns (regions: seq<CompositionRegion>)
      requires forall i :: i in dedicated || i in comp ==> i < |layers|
      requires Ascending(comp) && |dedicated| + |comp| <= MAX_ELEMENTS
      ensures AllSourcesFrom(comp, regions)
      ensures |exclude| + |dedicated| + |comp| > MAX_ELEMENTS ==> regions == []
      ensures |exclude| + |dedicated| + |comp| <= MAX_ELEMENTS && ShiftsDefined(|exclude|, |dedicated|) ==>
                Punched(Frames(layers), exclude, dedicated, comp, regions)
    {
      hide Punched, Ascending, ShiftsDefined;
      var layerOffset := |exclude| + |dedicated|;
      var numExclude := |exclude|;
      if |comp| + layerOffset > MAX_ELEMENTS {
        // The count is cut down, but the offset of the layers keeps the old one.
        numExclude := MAX_ELEMENTS - |comp| - |dedicated|;
      }
      assert forall i :: 0 <= i < |dedicated| ==> dedicated[i] in dedicated;
      assert forall j :: 0 <= j < |comp| ==> comp[j] in comp;
      var rects := BuildRects(exclude, numExclude, dedicated, comp, layerOffset);
      if numExclude < |exclude| {
        var none := SeparateRects64(rects);
        assert none == [];
        return [];
      }
      assert LayerRects(Frames(layers), exclude, dedicated, comp, rects);
      regions := PunchRegions(Frames(layers), exclude, dedicated, comp, rects);
    }

    /** Excluded rectangles, then dedicated layers, then from `layerOffset` on the precomposition layers. */
    method BuildRects(exclude: seq<Rect>, numExclude: nat, dedicated: seq<nat>, comp: seq<nat>, layerOffset: nat)
      returns (rects: seq<Rect>)
      requires numExclude <= |exclude| && layerOffset == |exclude| + |dedicated|
      requires forall i :: 0 <= i < |dedicated| ==> dedicated[i] < |layers|
      requires forall j :: 0 <= j < |comp| ==> comp[j] < |layers|
      ensures |rects| == |comp| + layerOffset
      ensures forall b :: 0 <= b < numExclude ==> rects[b] == exclude[b]
      ensures forall i :: 0 <= i < |dedicated| ==> rects[numExclude + i] == layers[dedicated[i]].frame
      ensures forall j :: 0 <= j < |comp| ==> rects[layerOffset + j] == layers[comp[j]].frame
    {
      rects := seq(|comp| + layerOffset, _ => Rect(0, 0, 0, 0));
      for b := 0 to numExclude
        invariant |rects| == |comp| + layerOffset
        invariant forall j :: 0 <= j < b ==> rects[j] == exclude[j]
      {
        rects := rects[b := exclude[b]];
      }
      for i := 0 to |dedicated|
        invariant |rects| == |comp| + layerOffset
        invariant forall b :: 0 <= b < numExclude ==> rects[b] == exclude[b]
        invariant forall j :: 0 <= j < i ==> rects[numExclude + j] == layers[dedicated[j]].frame
      {
        rects := rects[numExclude + i := layers[dedicated[i]].frame];
      }
      for j := 0 to |comp|
        invariant |rects| == |comp| + layerOffset
        invariant forall b :: 0 <= b < numExclude ==> rects[b] == exclude[b]
        invariant forall i :: 0 <= i < |dedicated| ==> rects[numExclude + i] == layers[dedicated[i]].frame
        invariant forall i :: 0 <= i < j ==> rects[layerOffset + i] == layers[comp[i]].frame
      {
        rects := rects[layerOffset + j := layers[comp[j]].frame];
      }
    }

    /** The layers to hand to the planner: those whose area is not entirely squashed. */
    method Composited(areas: seq<int>) returns (toComposite: seq<nat>)
      requires |areas| == |layers|
      ensures Ascending(toComposite) && InRange(layers, toComposite)
      ensures forall i: nat :: i in toComposite <==> i < |layers| && areas[i] < layers[i].frame.Area()
    {
      toComposite := [];
      for i := 0 to |layers|
        invariant Ascending(toComposite)
                  && forall j: nat :: j in toComposite <==> j < i && areas[j] < layers[j].frame.Area()
        invariant forall k :: 0 <= k < |toComposite| ==> toComposite[k] < i
      {
        if areas[i] < layers[i].frame.Area() {
          toComposite := toComposite + [i];
        }
      }
    }

    ghost predicate SquashReady(squash: SquashState?)
      reads squash
    {
      squash != null ==>
        && squash.Valid() && squash.RenderInSync()
        && (!geometryChanged ==> SameGeometry(squash, layers) && |layers| <= MAX_ELEMENTS)
    }

    /**
     * What is decided before planning: without a squash state everything is composited, with a new geometry everything
     * that has an area; otherwise the stable regions are squashed, and rendered anew when the frame is remembered with
     * another set of them than before.
     */
    twostate predicate SquashDecided(squash: SquashState?, exclude: seq<Rect>, toComposite: seq<nat>, useSquash: bool,
                                     stable: seq<bool>)
      reads this`squashRegions, squash
    {
      if squash == null then
        && exclude == [] && !useSquash && squashRegions == old(squashRegions)
        && |toComposite| == |layers| && forall i :: 0 <= i < |layers| ==> toComposite[i] == i
      else if geometryChanged then
        && exclude == [] && !useSquash && squashRegions == old(squashRegions)
        && squash.base == layers && squash.frames == []
        && forall i: nat :: i in toComposite <==> i < |layers| && layers[i].frame.Area() > 0
      else
        && squash.base == old(squash.base) && squash.frames == old(squash.frames) + [layers]
        && |squash.regions| == |old(squash.regions)|
        && StableRight(squash.base, old(squash.frames), layers, squash.regions, stable)
        && Decided(layers, squash.regions, stable, exclude, toComposite, useSquash)
        && old(squashRegions) <= squashRegions
        && RenderedWhenDue(exists k :: 0 <= k < |stable| && old(squash.regions)[k].squashed != stable[k],
                           squash.regions, stable, squashRegions[|old(squashRegions)|..])
    }

    /** What is added to the squash regions, and that nothing is when no rendering is due. */
    ghost predicate RenderedWhenDue(due: bool, regions: seq<Region>, stable: seq<bool>, added: seq<CompositionRegion>)
      requires |stable| == |regions|
    {
      if due then RenderedRight(layers, regions, stable, added) else added == []
    }

    lemma {:induction false} CollectedIsRight(squash: SquashState, stable: seq<bool>, render: bool,
                                              rendered: seq<CompositionRegion>)
      requires squash.Valid() && SameGeometry(squash, layers) && |layers| <= MAX_ELEMENTS
      requires |stable| == |squash.regions|
      requires rendered == if render then SquashRegionsOf(squash.regions, stable, |stable|, |layers|) else []
      ensures RenderedWhenDue(render, squash.regions, stable, rendered)
      ensures forall i: nat :: ReadBy([] + rendered, i) ==> i < |layers|
    {
      hide SquashRegionsOf, RenderedRight;
      if render {
        RenderedIsRight(layers, squash.regions, stable);
      }
      RenderedInRange(squash.regions, stable, |layers|, rendered);
    }

    /** Observes a frame of unchanged geometry and collects what is stable. */
    method SquashFrame(squash: SquashState)
      returns (exclude: seq<Rect>, areas: seq<int>, useSquash: bool, stable: seq<bool>)
      requires squash.Valid() && squash.RenderInSync() && SameGeometry(squash, layers) && |layers| <= MAX_ELEMENTS
      modifies squash, this`squashRegions
      ensures squash.Valid() && squash.RenderInSync() && SameGeometry(squash, layers)
      ensures squash.base == old(squash.base) && squash.frames == old(squash.frames) + [layers]
      ensures |squash.regions| == |old(squash.regions)|
      ensures StableRight(squash.base, old(squash.frames), layers, squash.regions, stable)
      ensures exclude == StableRects(squash.regions, stable, |stable|)
      ensures AreasRight(squash.regions, stable, areas, |layers|)
      ensures useSquash <==> exists k :: 0 <= k < |stable| && stable[k]
      ensures old(squashRegions) <= squashRegions
      ensures RenderedWhenDue(exists k :: 0 <= k < |stable| && old(squash.regions)[k].squashed != stable[k],
                              squash.regions, stable, squashRegions[|old(squashRegions)|..])
      ensures old(squashRegions) == [] ==> forall i: nat :: ReadBy(squashRegions, i) ==> i < |layers|
    {
      var render, rendered;
      stable, useSquash, render := squash.ObserveFrame(layers);
      hide SquashState.Valid, SquashState.RenderInSync, StableIn, SquashRegionsOf, RenderedWhenDue, ReadBy, Separates;
      exclude, areas, rendered := CollectStable(squash.regions, stable, render, |layers|);
      CollectedIsRight(squash, stable, render, rendered);
      squashRegions := squashRegions + rendered;
      assert squashRegions[|old(squashRegions)|..] == rendered;
    }

    /** Decides which regions are shown from the squash framebuffer and which layers still have to be composited. */
    method SquashStep(squash: SquashState?)
      returns (exclude: seq<Rect>, toComposite: seq<nat>, useSquash: bool, ghost stable: seq<bool>)
      requires SquashReady(squash)
      modifies squash, this`squashRegions
      ensures squash != null ==> squash.Valid() && squash.RenderInSync()
      ensures Ascending(toComposite) && InRange(layers, toComposite)
      ensures SquashDecided(squash, exclude, toComposite, useSquash, stable)
      ensures AllPlanned(layers, exclude, toComposite)
      ensures old(squashRegions) == [] ==> forall i: nat :: ReadBy(squashRegions, i) ==> i < |layers|
    {
      exclude, useSquash, stable := [], false, [];
      var areas: seq<int> := seq(|layers|, _ => 0);
      if squash != null {
        if geometryChanged {
          squash.Init(layers);
          stable := seq(|squash.regions|, _ => false);
        } else {
          var stableRegions;
          exclude, areas, useSquash, stableRegions := SquashFrame(squash);
          stable := stableRegions;
          PlannedExactly(layers, squash.regions, stable, areas);
        }
      }
      if squash == null {
        toComposite := seq(|layers|, i requires 0 <= i < |layers| => i);
        forall i: nat | i < |layers|
          ensures i in toComposite
        {
          assert toComposite[i] == i;
        }
        return;
      }
      if geometryChanged {
        AllPositivePlanned(layers, areas);
      }
      toComposite := Composited(areas);
    }

    /** Neither separated nor with fences. */
    ghost predicate Unfinished()
      reads this`preCompRegions, timeline
    {
      && preCompRegions == [] && timeline.fences == map[]
      && timeline.last == timeline.current == timeline.squashDone == timeline.preCompDone == 0
    }

    /** The state of a composition that has not been planned yet. */
    ghost predicate Unplanned()
      reads this, timeline
    {
      squashRegions == [] && compositionPlanes == [] && Unfinished()
    }

    ghost function UsablePlanes(primary: seq<HwPlane>, overlay: seq<HwPlane>): seq<HwPlane> {
      Planner.Supporting(primary, crtc) + Planner.Supporting(overlay, crtc)
    }

    ghost function PlanInputFor(toComposite: seq<nat>, usable: seq<HwPlane>): PlanInput {
      PlanInput(layers, toComposite, usable)
    }

    /** The composition is the finished plan for `toComposite` on the planes `usable` and the squash plane. */
    ghost predicate IsPlanFor(toComposite: seq<nat>, usable: seq<HwPlane>, squashPart: seq<CompositionPlane>)
      requires InRange(layers, toComposite)
      reads this`compositionPlanes
    {
      && compositionPlanes == Finished(Provision(layers, toComposite, usable), squashPart)
      && |squashPart| <= 1 && (squashPart != [] ==> squashPart[0].kind == Squash && squashPart[0].sources == [])
    }

    /** The separation's view of a finished plan. */
    lemma {:induction false} PlanParts(toComposite: seq<nat>, usable: seq<HwPlane>, squashPart: seq<CompositionPlane>)
      requires Ascending(toComposite) && InRange(layers, toComposite) && IsPlanFor(toComposite, usable, squashPart)
      ensures var t := Provision(layers, toComposite, usable);
              && (HasPrecomp() <==> t.pre != []) && CompLayers() == Sort(PreSources(t))
              && (t.pre != [] ==> Dedicated() == SourceOf(t.ded))
              && Ascending(CompLayers()) && (HasPrecomp() ==> |Dedicated()| <= |usable|)
              && (HasPrecomp() ==> forall i :: i in Dedicated() || i in CompLayers() ==> i < |layers|)
    {
      var c := PlanInputFor(toComposite, usable);
      var t := Provision(layers, toComposite, usable);
      PlanSizes(c);
      PlanLawful(c);
      FinishedParts(t, squashPart);
      SourcesBelowDedicated(t.ded);
    }

    /**
     * Outside the excluded regions the screen shows the layer stack at a pixel exactly
     * when every unprotected layer there has a place, the precomposition has been
     * separated or had nothing to show there, and no two rotated protected layers clash.
     */
    ghost predicate PictureRight(exclude: seq<Rect>)
      reads this
    {
      forall p :: !Excluded(exclude, p) ==>
        (ShowsStack(layers, preCompRegions, compositionPlanes, p) <==> ShownRight(exclude, p))
    }

    ghost predicate ShownRight(exclude: seq<Rect>, p: Point)
      reads this
    {
      && Housed(layers, compositionPlanes, p) && NothingLost(exclude, p) && !Clashes(layers, compositionPlanes, p)
    }

    ghost predicate NothingLost(exclude: seq<Rect>, p: Point)
      reads this`compositionPlanes
    {
      HasPrecomp() && |exclude| + |Dedicated()| + |CompLayers()| > 64 ==>
        forall i :: !ShownByPrecomp(Frames(layers), Dedicated(), CompLayers(), p, i)
    }

    lemma {:induction false} PlanPictureRight(exclude: seq<Rect>, toComposite: seq<nat>, usable: seq<HwPlane>,
                                              squashPart: seq<CompositionPlane>)
      requires Ascending(toComposite) && InRange(layers, toComposite) && IsPlanFor(toComposite, usable, squashPart)
      requires AllPlanned(layers, exclude, toComposite)
      requires !HasPrecomp() || TooManyRects(exclude) ==> preCompRegions == []
      requires HasPrecomp() && !TooManyRects(exclude) ==>
                 Punched(Frames(layers), exclude, Dedicated(), CompLayers(), preCompRegions)
      ensures PictureRight(exclude)
    {
      var c := PlanInputFor(toComposite, usable);
      var t := Provision(layers, toComposite, usable);
      assert Given(c);
      PlanParts(toComposite, usable, squashPart);
      NoPlaneNoPrecomp(c);
      hide Given, InRange, Ascending, Provision, Punched, ShowsStack, Clashes, Housed, ShownByPrecomp, Excluded, Covers,
           SourceOf, PreSources, Sort;
      forall p | !Excluded(exclude, p)
        ensures ShowsStack(layers, preCompRegions, compositionPlanes, p) <==> ShownRight(exclude, p)
      {
        if usable == [] {
          NoPlanesShowStack(c, squashPart, p);
        } else {
          PlannedAreHoused(c, squashPart, p);
          if HasPrecomp() && TooManyRects(exclude) {
            OverflowShowsStack(c, squashPart, p);
          } else {
            FinishedShowsStack(c, exclude, preCompRegions, squashPart, p);
          }
        }
      }
    }

    /** Every unprotected layer over a pixel outside the excluded regions has a place. */
    ghost predicate EachHoused(exclude: seq<Rect>)
      reads this`compositionPlanes
    {
      forall p :: !Excluded(exclude, p) ==> Housed(layers, compositionPlanes, p)
    }

    lemma {:induction false} PlanHoused(exclude: seq<Rect>, toComposite: seq<nat>, usable: seq<HwPlane>,
                                        squashPart: seq<CompositionPlane>)
      requires Ascending(toComposite) && InRange(layers, toComposite) && IsPlanFor(toComposite, usable, squashPart)
      requires AllPlanned(layers, exclude, toComposite)
      requires usable != []
      ensures EachHoused(exclude)
    {
      var c := PlanInputFor(toComposite, usable);
      assert Given(c);
      hide Given, InRange, Ascending, Provision, Housed, Excluded, Covers;
      forall p | !Excluded(exclude, p)
        ensures Housed(layers, compositionPlanes, p)
      {
        PlannedAreHoused(c, squashPart, p);
      }
    }

    lemma {:induction false} NoPlaneNoPrecomp(c: PlanInput)
      requires Given(c)
      ensures c.usable == [] ==> Provision(c.info, c.all, c.usable).pre == []
    {
      if c.usable == [] {
        NothingPlaced(c);
      }
    }

    /** Punches the holes and assigns the fences of a planned composition. */
    method FinalizeComposition(exclude: seq<Rect>, ghost toComposite: seq<nat>, ghost usable: seq<HwPlane>,
                               ghost squashPart: seq<CompositionPlane>)
      returns (ok: bool)
      requires Ascending(toComposite) && InRange(layers, toComposite) && IsPlanFor(toComposite, usable, squashPart)
      requires Unfinished()
      requires forall i: nat :: ReadBy(squashRegions, i) ==> i < |layers|
      requires AllPlanned(layers, exclude, toComposite)
      modifies this`preCompRegions, timeline
      ensures SeparationDefined(exclude) ==> FencesAsSaid(ok)
      ensures SeparationDefined(exclude) ==> PictureRight(exclude)
      ensures usable != [] ==> EachHoused(exclude)
    {
      hide Punched, PictureRight, EachHoused, AllPlanned, IsPlanFor, Ascending, InRange, ReadBy, OnPlane,
           AllSourcesFrom, Dedicated, CompLayers, HasPrecomp;
      PlanParts(toComposite, usable, squashPart);
      SeparateLayers(exclude);
      assert preCompRegions[0..] == preCompRegions;
      ReadersInRange(toComposite, usable, squashPart);
      if SeparationDefined(exclude) {
        PlanPictureRight(exclude, toComposite, usable, squashPart);
      }
      if usable != [] {
        PlanHoused(exclude, toComposite, usable, squashPart);
      }
      ok := timeline.CreateAndAssignReleaseFences(layers, squashRegions, preCompRegions, compositionPlanes);
    }

    /** The fences of a finished composition, or what is left of them when the kernel refused one. */
    ghost predicate FencesAsSaid(ok: bool)
      reads this, timeline
    {
      if ok then timeline.FencesRight(layers, squashRegions, preCompRegions, compositionPlanes)
      else timeline.NoneReleased(layers, squashRegions, preCompRegions, compositionPlanes)
    }

    /**
     * The composition is the plan for `toComposite` on the usable planes, the highest of them kept for the squash
     * framebuffer when that is used. No plane is lost, with a plane for layers every unprotected layer has a place, and
     * unless the separation is undefined, fences and picture are right.
     */
    ghost predicate PlannedRight(exclude: seq<Rect>, toComposite: seq<nat>, useSquash: bool, primary: seq<HwPlane>,
                                 overlay: seq<HwPlane>, primary': seq<HwPlane>, overlay': seq<HwPlane>, fenced: bool)
      requires InRange(layers, toComposite)
      reads this, timeline
    {
      var usable := UsablePlanes(primary, overlay);
      && IsPlanFor(toComposite, Planner.ForLayers(usable, useSquash), Planner.SquashPart(usable, useSquash))
      && PoolsInOrder(primary, overlay, primary', overlay')
      && (PoolsTyped(primary, overlay) ==> PoolsConserved(primary, overlay, compositionPlanes, primary', overlay'))
      && (SeparationDefined(exclude) ==> FencesAsSaid(fenced))
      && (SeparationDefined(exclude) ==> PictureRight(exclude))
      && (Planner.ForLayers(usable, useSquash) != [] ==> EachHoused(exclude))
    }

    /**
     * Plans a frame. Unless the separation is undefined, the picture outside the squashed regions is right exactly
     * where `PictureRight` says.
     */
    method Plan(squash: SquashState?, primary: seq<HwPlane>, overlay: seq<HwPlane>)
      returns (outcome: Outcome, primary': seq<HwPlane>, overlay': seq<HwPlane>,
               ghost exclude: seq<Rect>, ghost toComposite: seq<nat>, ghost useSquash: bool, ghost stable: seq<bool>)
      requires Unplanned() && SquashReady(squash)
      modifies this, timeline, squash
      ensures squash != null ==> squash.Valid() && squash.RenderInSync()
      ensures Ascending(toComposite) && InRange(layers, toComposite)
      ensures SquashDecided(squash, exclude, toComposite, useSquash, stable)
      ensures outcome.NoDevice? <==> UsablePlanes(primary, overlay) == []
      ensures !outcome.NoDevice? ==>
                PlannedRight(exclude, toComposite, useSquash, primary, overlay, primary', overlay', outcome.Planned?)
    {
      primary', overlay' := primary, overlay;
      var excludeRects, layersToPlan, use;
      excludeRects, layersToPlan, use, stable := SquashStep(squash);
      exclude, toComposite, useSquash := excludeRects, layersToPlan, use;
      hide Ascending, InRange, SquashDecided, PlannedRight, AllPlanned, Unfinished, SquashState.Valid,
           SquashState.RenderInSync, ReadBy, UsablePlanes;
      outcome, primary', overlay' := PlanLayers(excludeRects, layersToPlan, use, primary, overlay);
    }

    /** Plans the layers that are left to composite. */
    method PlanLayers(exclude: seq<Rect>, toComposite: seq<nat>, useSquash: bool, primary: seq<HwPlane>,
                      overlay: seq<HwPlane>)
      returns (outcome: Outcome, primary': seq<HwPlane>, overlay': seq<HwPlane>)
      requires Ascending(toComposite) && InRange(layers, toComposite) && Unfinished()
      requires forall i: nat :: ReadBy(squashRegions, i) ==> i < |layers|
      requires AllPlanned(layers, exclude, toComposite)
      modifies this`compositionPlanes, this`preCompRegions, timeline
      ensures outcome.NoDevice? <==> UsablePlanes(primary, overlay) == []
      ensures !outcome.NoDevice? ==>
                PlannedRight(exclude, toComposite, useSquash, primary, overlay, primary', overlay', outcome.Planned?)
    {
      hide Ascending, InRange, ReadBy, PlannedRight, AllPlanned, Provision, Unfinished, Planner.PlanesAscend;
      primary', overlay' := primary, overlay;
      var result := Planner.ProvisionPlanes(layers, toComposite, useSquash, crtc, primary, overlay);
      if result.NoDevice? {
        outcome := NoDevice;
        return;
      }
      var ok;
      ok, primary', overlay' := CarryOut(result.composition, exclude, toComposite, useSquash, primary, overlay);
      outcome := if ok then Planned else FenceFailed;
    }

    /** Takes the planes of the plan out of the pools and finishes the composition. */
    method CarryOut(composition: seq<CompositionPlane>, exclude: seq<Rect>, ghost toComposite: seq<nat>,
                    ghost useSquash: bool, primary: seq<HwPlane>, overlay: seq<HwPlane>)
      returns (ok: bool, primary': seq<HwPlane>, overlay': seq<HwPlane>)
      requires Ascending(toComposite) && InRange(layers, toComposite)
      requires var usable := UsablePlanes(primary, overlay);
               var t := Provision(layers, toComposite, Planner.ForLayers(usable, useSquash));
               composition == t.ded + t.pre + Planner.SquashPart(usable, useSquash)
      requires Unfinished()
      requires forall i: nat :: ReadBy(squashRegions, i) ==> i < |layers|
      requires AllPlanned(layers, exclude, toComposite)
      modifies this`compositionPlanes, this`preCompRegions, timeline
      ensures PlannedRight(exclude, toComposite, useSquash, primary, overlay, primary', overlay', ok)
    {
      hide Ascending, InRange, AllPlanned, ReadBy, PictureRight, EachHoused, SeparationDefined, FencesAsSaid,
           Unfinished;
      ghost var usable := UsablePlanes(primary, overlay);
      ghost var forLayers, squashPart := Planner.ForLayers(usable, useSquash), Planner.SquashPart(usable, useSquash);
      UsableSplits(usable, useSquash);
      compositionPlanes, primary', overlay' := TakeUsed(composition, primary, overlay);
      UsedWithin(toComposite, usable, forLayers, squashPart, primary, overlay, composition);
      ok := FinalizeComposition(exclude, toComposite, forLayers, squashPart);
    }

    lemma {:induction false} UsedWithin(toComposite: seq<nat>, usable: seq<HwPlane>, forLayers: seq<HwPlane>,
                                        squashPart: seq<CompositionPlane>, primary: seq<HwPlane>, overlay: seq<HwPlane>,
                                        composition: seq<CompositionPlane>)
      requires Ascending(toComposite) && InRange(layers, toComposite) && IsPlanFor(toComposite, forLayers, squashPart)
      requires usable == UsablePlanes(primary, overlay) == forLayers + HardwareOf(squashPart)
      requires compositionPlanes == WithSortedSources(composition)
      ensures multiset(HardwareOf(composition)) <= multiset(primary) + multiset(overlay)
      ensures HardwareOf(composition) == HardwareOf(compositionPlanes)
    {
      assert HardwareOf(composition) == HardwareOf(compositionPlanes);
      SupportingSize(primary, crtc);
      SupportingSize(overlay, crtc);
      FinishedPlanes(PlanInputFor(toComposite, forLayers), usable, squashPart);
    }

    /** Everything the stages read is a layer. */
    lemma {:induction false} ReadersInRange(toComposite: seq<nat>, usable: seq<HwPlane>,
                                            squashPart: seq<CompositionPlane>)
      requires Ascending(toComposite) && InRange(layers, toComposite) && IsPlanFor(toComposite, usable, squashPart)
      requires forall i: nat :: ReadBy(squashRegions, i) ==> i < |layers|
      requires AllSourcesFrom(CompLayers(), preCompRegions)
      ensures forall i: nat ::
                ReadBy(squashRegions, i) || ReadBy(preCompRegions, i) || OnPlane(compositionPlanes, i) ==> i < |layers|
    {
      var c := PlanInputFor(toComposite, usable);
      var t := Provision(layers, toComposite, usable);
      PlanParts(toComposite, usable, squashPart);
      PlanSizes(c);
      assert Shape(t) by { PlanLawful(c); }
      hide Provision, Ascending, SourceOf, Sort;
      forall i: nat | ReadBy(preCompRegions, i) || OnPlane(compositionPlanes, i)
        ensures i < |layers|
      {
        OnPlaneIsDedicated(t, squashPart, i);
        if ReadBy(preCompRegions, i) {
          var k :| 0 <= k < |preCompRegions| && i in preCompRegions[k].sources;
          assert SourcesFrom(CompLayers(), preCompRegions[k].sources);
        }
      }
    }
  }
}
