/** Two compositions that do not show the layer stack everywhere. */
module DisplayExample {
  import opened Geometry
  import opened SeparateRects
  import opened SquashStates
  import opened Layers
  import opened CompositionTypes
  import opened HolePunch
  import opened LayerStacks
  import opened PlanStages
  import opened PlanLaws
  import opened PlanTheorems
  import opened CompositionLaws
  import opened DisplayComposition
  import Planner

  function Plain(frame: Rect, handle: nat): Layer {
    Layer(frame, 1.0, 1.0, ARGB8888, PreMult, {}, false, handle, false)
  }

  /** A layer of one pixel at the origin. */
  function Dot(handle: nat): Layer {
    Plain(Rect(0, 0, 1, 1), handle)
  }

  // ----- a frame with too many rectangles -----

  const STRIPS: nat := 32

  /** A still layer of three pixels; its outer pixels belong to the strips beside it too. */
  function Strip(k: nat): Layer {
    Plain(Rect(2 * k + 1, 0, 2 * k + 4, 1), k)
  }

  /** Frame `t`: the strips, and over the origin two layers that show something new each time. */
  function Scene(t: nat): (layers: seq<Layer>)
    ensures |layers| == STRIPS + 2
    ensures forall i :: 0 <= i < STRIPS ==> layers[i] == Strip(i)
    ensures layers[STRIPS] == Dot(100 + 2 * t) && layers[STRIPS + 1] == Dot(101 + 2 * t)
  {
    seq(STRIPS, i requires 0 <= i < STRIPS => Strip(i)) + [Dot(100 + 2 * t), Dot(101 + 2 * t)]
  }

  lemma {:induction false} SameFrames(t: nat)
    ensures Frames(Scene(t)) == Frames(Scene(0))
  {
    forall i | 0 <= i < STRIPS + 2
      ensures Frames(Scene(t))[i] == Frames(Scene(0))[i]
    {
    }
  }

  /** What is over pixel `x` of the only row. */
  lemma {:induction false} OverPixel(t: nat, x: int, i: nat)
    ensures i in IdsAt(Frames(Scene(t)), Point(x, 0)) <==>
              (i < STRIPS && 2 * i + 1 <= x < 2 * i + 4) || (STRIPS <= i < STRIPS + 2 && x == 0)
  {
    if i < STRIPS {
      assert Scene(t)[i] == Strip(i);
    } else if i < STRIPS + 2 {
      assert Scene(t)[i].frame == Rect(0, 0, 1, 1);
    }
  }

  /** No two of the pixels 2 to 64 have the same strips over them. */
  lemma {:induction false} PixelsDiffer(t: nat, x: int, y: int)
    requires 2 <= x < y <= 64
    ensures IdsAt(Frames(Scene(t)), Point(x, 0)) != IdsAt(Frames(Scene(t)), Point(y, 0))
  {
    var k := (x - 1) / 2;
    if x % 2 == 1 {
      OverPixel(t, x, k - 1);
      OverPixel(t, y, k - 1);
    } else if y == x + 1 {
      OverPixel(t, x, k + 1);
      OverPixel(t, y, k + 1);
    } else {
      OverPixel(t, x, k);
      OverPixel(t, y, k);
    }
  }

  // ----- which regions are stable -----

  /** Frames 1 to `n`. */
  function Scenes(n: nat): (frames: seq<seq<Layer>>)
    ensures |frames| == n && forall t :: 0 <= t < n ==> frames[t] == Scene(t + 1)
  {
    seq(n, t requires 0 <= t < n => Scene(t + 1))
  }

  lemma {:induction false} StripsStandStill(t: nat, u: nat, refs: set<nat>)
    requires forall i :: i in refs ==> i < STRIPS
    ensures !RegionChanged(Scene(t), Scene(u), refs)
  {
    forall i | i in refs
      ensures !LayerChanged(Scene(t), Scene(u), i)
    {
      assert Scene(t)[i] == Strip(i) && Scene(u)[i] == Strip(i);
    }
  }

  /** In frame 7 the strips have been still long enough. */
  lemma {:induction false} StripsAreStable(refs: set<nat>)
    requires forall i :: i in refs ==> i < STRIPS
    ensures StableIn(Scene(0), Scenes(6), Scene(7), refs)
  {
    forall t: nat | t < 6
      ensures !ChangedInFrame(Scene(0), Scenes(6), t, refs)
    {
      StripsStandStill(t, t + 1, refs);
      assert SeenBefore(Scene(0), Scenes(6), t) == Scene(t);
    }
    StripsStandStill(6, 7, refs);
    assert SeenBefore(Scene(0), Scenes(6), 6) == Scene(6);
    hide Scene, RegionChanged, ChangedInFrame;
  }

  lemma {:induction false} DotsAreNot(refs: set<nat>)
    requires STRIPS in refs
    ensures !StableIn(Scene(0), Scenes(6), Scene(7), refs)
  {
    assert SeenBefore(Scene(0), Scenes(6), 6) == Scene(6);
    assert LayerChanged(Scene(6), Scene(7), STRIPS);
  }

  /** The regions of the scene, and which of them are stable in frame 7. */
  ghost predicate Seen(regions: seq<Region>, stable: seq<bool>) {
    && Separates(Frames(Scene(0)), AsRectSets(regions))
    && StableRight(Scene(0), Scenes(6), Scene(7), regions, stable)
  }

  lemma {:induction false} RegionAt(regions: seq<Region>, stable: seq<bool>, k: nat, p: Point)
    requires Seen(regions, stable) && k < |regions| && regions[k].rect.Contains(p)
    ensures regions[k].layerRefs == IdsAt(Frames(Scene(0)), p)
  {
    assert AsRectSets(regions)[k].rect.Contains(p);
  }

  lemma {:induction false} OverRow(p: Point, i: nat)
    requires i in IdsAt(Frames(Scene(0)), p)
    ensures p.y == 0
  {
    assert Scene(0)[i].frame.Contains(p);
    if i < STRIPS {
      assert Scene(0)[i] == Strip(i);
    }
  }

  /** A region over a strip is over strips only, so it is stable; one over a dot is not. */
  lemma {:induction false} StableIffStrips(regions: seq<Region>, stable: seq<bool>, k: nat, i: nat)
    requires Seen(regions, stable) && k < |regions| && i in regions[k].layerRefs
    ensures i < STRIPS + 2 && |stable| == |regions| && (stable[k] <==> i < STRIPS)
  {
    var corner := Point(regions[k].rect.left, regions[k].rect.top);
    assert !AsRectSets(regions)[k].rect.Empty();
    RegionAt(regions, stable, k, corner);
    OverRow(corner, i);
    OverPixel(0, corner.x, i);
    if i < STRIPS {
      forall j | j in regions[k].layerRefs
        ensures j < STRIPS
      {
        OverPixel(0, corner.x, j);
      }
      StripsAreStable(regions[k].layerRefs);
    } else {
      OverPixel(0, corner.x, STRIPS);
      DotsAreNot(regions[k].layerRefs);
    }
  }

  /** A stable region for each of the pixels from 2 on. */
  lemma {:induction false} StablePicks(regions: seq<Region>, stable: seq<bool>, n: nat) returns (picks: seq<nat>)
    requires Seen(regions, stable) && n <= 63
    ensures |picks| == n && |stable| == |regions|
    ensures forall m :: 0 <= m < n ==>
              picks[m] < |regions| && stable[picks[m]] && regions[picks[m]].rect.Contains(Point(m + 2, 0))
  {
    if n == 0 {
      picks := [];
    } else {
      picks := StablePicks(regions, stable, n - 1);
      var x := n + 1;
      OverPixel(0, x, (x - 2) / 2);
      var sets := AsRectSets(regions);
      assert Covered(sets, Point(x, 0));
      var k: nat :| k < |sets| && sets[k].rect.Contains(Point(x, 0));
      RegionAt(regions, stable, k, Point(x, 0));
      StableIffStrips(regions, stable, k, (x - 2) / 2);
      picks := picks + [k];
    }
  }

  lemma {:induction false} PicksDiffer(regions: seq<Region>, stable: seq<bool>, picks: seq<nat>)
    requires Seen(regions, stable) && |picks| <= 63
    requires forall m :: 0 <= m < |picks| ==> picks[m] < |regions| && regions[picks[m]].rect.Contains(Point(m + 2, 0))
    ensures forall m, n :: 0 <= m < n < |picks| ==> picks[m] != picks[n]
  {
    hide Seen;
    forall m, n | 0 <= m < n < |picks|
      ensures picks[m] != picks[n]
    {
      RegionAt(regions, stable, picks[m], Point(m + 2, 0));
      RegionAt(regions, stable, picks[n], Point(n + 2, 0));
      PixelsDiffer(0, m + 2, n + 2);
    }
  }

  lemma {:induction false} DifferentFit(picks: seq<nat>, all: set<nat>)
    requires (forall m :: 0 <= m < |picks| ==> picks[m] in all)
             && forall m, n :: 0 <= m < n < |picks| ==> picks[m] != picks[n]
    ensures |picks| <= |all|
  {
    if picks != [] {
      var last := |picks| - 1;
      DifferentFit(picks[..last], all - {picks[last]});
    }
  }

  function StableSet(stable: seq<bool>, n: nat): set<nat>
    requires n <= |stable|
  {
    set k: nat | k < n && stable[k]
  }

  lemma {:induction false} StableRectsCount(regions: seq<Region>, stable: seq<bool>, n: nat)
    requires n <= |regions| == |stable|
    ensures |StableRects(regions, stable, n)| == |StableSet(stable, n)|
  {
    if n > 0 {
      StableRectsCount(regions, stable, n - 1);
      assert StableSet(stable, n) == if stable[n - 1] then StableSet(stable, n - 1) + {n - 1}
                                     else StableSet(stable, n - 1);
    }
  }

  lemma {:induction false} ManyExcluded(regions: seq<Region>, stable: seq<bool>)
    requires Seen(regions, stable)
    ensures |stable| == |regions| && |StableRects(regions, stable, |stable|)| >= 63
  {
    hide Seen, StableRects;
    var picks := StablePicks(regions, stable, 63);
    PicksDiffer(regions, stable, picks);
    DifferentFit(picks, StableSet(stable, |stable|));
    StableRectsCount(regions, stable, |stable|);
  }

  lemma {:induction false} OriginIsFree(regions: seq<Region>, stable: seq<bool>)
    requires Seen(regions, stable)
    ensures |stable| == |regions| && !Excluded(StableRects(regions, stable, |stable|), Point(0, 0))
  {
    StableRectsExclude(regions, stable, |stable|, Point(0, 0));
    forall k: nat | k < |regions| && regions[k].rect.Contains(Point(0, 0))
      ensures !stable[k]
    {
      RegionAt(regions, stable, k, Point(0, 0));
      OverPixel(0, 0, STRIPS);
      StableIffStrips(regions, stable, k, STRIPS);
    }
  }

  /** Exactly the two layers over the origin are left to composite. */
  lemma {:induction false} DotsAreLeft(regions: seq<Region>, stable: seq<bool>, toComposite: seq<nat>)
    requires Seen(regions, stable) && |stable| == |regions| && Ascending(toComposite) && InRange(Scene(7), toComposite)
    requires forall i: nat :: i < |Scene(7)| && !Scene(7)[i].frame.Empty() ==>
               (i in toComposite <==> TouchesUnstable(regions, stable, i))
    ensures toComposite == [STRIPS, STRIPS + 1]
  {
    forall i: nat | i < STRIPS + 2
      ensures i in toComposite <==> STRIPS <= i
    {
      assert !Scene(7)[i].frame.Empty() by {
        if i < STRIPS {
          assert Scene(7)[i] == Strip(i);
        }
      }
      DotsTouch(regions, stable, i);
    }
    var dots := [STRIPS, STRIPS + 1];
    assert forall i :: i in dots <==> i == STRIPS || i == STRIPS + 1;
    hide Seen, Scene;
    AscendingUnique(toComposite, dots);
  }

  lemma {:induction false} DotsTouch(regions: seq<Region>, stable: seq<bool>, i: nat)
    requires Seen(regions, stable) && |stable| == |regions| && i < STRIPS + 2
    ensures TouchesUnstable(regions, stable, i) <==> STRIPS <= i
  {
    if TouchesUnstable(regions, stable, i) {
      var k :| 0 <= k < |regions| && k < |stable| && i in regions[k].layerRefs && !stable[k];
      StableIffStrips(regions, stable, k, i);
    }
    if STRIPS <= i {
      OverPixel(0, 0, i);
      var sets := AsRectSets(regions);
      assert Covered(sets, Point(0, 0));
      var k: nat :| k < |sets| && sets[k].rect.Contains(Point(0, 0));
      RegionAt(regions, stable, k, Point(0, 0));
      StableIffStrips(regions, stable, k, i);
    }
  }

  // ----- the run that leads there -----

  /** The squash state after frame `t`. */
  ghost predicate HasSeen(squash: SquashState, t: nat)
    reads squash
  {
    squash.Valid() && squash.RenderInSync() && squash.base == Scene(0) && squash.frames == Scenes(t)
  }

  lemma {:induction false} ReadyForNext(squash: SquashState, t: nat)
    requires HasSeen(squash, t)
    ensures SameGeometry(squash, Scene(t + 1)) && |Scene(t + 1)| <= MAX_ELEMENTS
    ensures Scenes(t) + [Scene(t + 1)] == Scenes(t + 1)
    ensures Separates(Frames(Scene(0)), AsRectSets(squash.regions))
  {
    SameFrames(t + 1);
  }

  /** With two planes, the squash framebuffer takes the second. */
  lemma {:induction false} PlanesOf(a: HwPlane, b: HwPlane)
    requires 0 in a.crtcs && 0 in b.crtcs
    ensures Planner.Supporting([a], 0) + Planner.Supporting([b], 0) == [a, b]
    ensures Planner.ForLayers([a, b], true) == [a]
    ensures Planner.SquashPart([a, b], true) == [CompositionPlane(Squash, b, [])]
  {
    assert Planner.Supporting([], 0) == [];
  }

  /** The plan for `toComposite` on the plane `a`, with the squash framebuffer on the plane `b`. */
  ghost predicate PlannedBeside(composition: DrmDisplayComposition, exclude: seq<Rect>, toComposite: seq<nat>,
                                a: HwPlane, b: HwPlane)
    reads composition
  {
    && InRange(composition.layers, toComposite)
    && composition.IsPlanFor(toComposite, [a], [CompositionPlane(Squash, b, [])])
    && (composition.SeparationDefined(exclude) ==> composition.PictureRight(exclude))
  }

  /** Frame 0 sets the squash state up. */
  method ShowFirst(squash: SquashState, a: HwPlane, b: HwPlane)
    requires squash.Valid() && squash.RenderInSync()
    modifies squash
    ensures HasSeen(squash, 0)
  {
    hide Scene, InRange, Ascending, Decided, StableRight, SquashState.Valid, SquashState.RenderInSync;
    var composition := new DrmDisplayComposition(0, Scene(0), true);
    var _, _, _, _, _, _, _ := composition.Plan(squash, [a], [b]);
    assert Scenes(0) == [];
  }

  /** Plans frame `t + 1` on the planes `a` and `b`. */
  method ShowNext(squash: SquashState, t: nat, a: HwPlane, b: HwPlane)
    returns (composition: DrmDisplayComposition, ghost exclude: seq<Rect>, ghost toComposite: seq<nat>,
             ghost useSquash: bool, ghost stable: seq<bool>)
    requires HasSeen(squash, t) && 0 in a.crtcs && 0 in b.crtcs
    modifies squash
    ensures HasSeen(squash, t + 1) && composition.layers == Scene(t + 1)
    ensures StableRight(Scene(0), Scenes(t), Scene(t + 1), squash.regions, stable)
    ensures Decided(Scene(t + 1), squash.regions, stable, exclude, toComposite, useSquash)
    ensures Ascending(toComposite) && InRange(Scene(t + 1), toComposite)
    ensures useSquash ==> PlannedBeside(composition, exclude, toComposite, a, b)
  {
    ReadyForNext(squash, t);
    PlanesOf(a, b);
    hide Scene, Scenes, InRange, Ascending, Decided, StableRight, SquashState.Valid, SquashState.RenderInSync;
    composition := new DrmDisplayComposition(0, Scene(t + 1), false);
    var outcome, primary, overlay;
    outcome, primary, overlay, exclude, toComposite, useSquash, stable := composition.Plan(squash, [a], [b]);
  }

  lemma {:induction false} TwoAreSorted(i: nat, j: nat)
    requires i < j
    ensures Sort([i, j]) == [i, j]
  {
    assert [i, j][1..] == [j] && [j][1..] == [];
    assert Sort([j]) == [j];
  }

  /** Both layers over the origin go to the precomposition. */
  lemma {:induction false} DotsArePrecomposed(composition: DrmDisplayComposition, a: HwPlane, b: HwPlane)
    requires composition.layers == Scene(7) && InRange(Scene(7), [STRIPS, STRIPS + 1])
    requires composition.IsPlanFor([STRIPS, STRIPS + 1], [a], [CompositionPlane(Squash, b, [])])
    ensures composition.HasPrecomp() && composition.Dedicated() == []
            && composition.CompLayers() == [STRIPS, STRIPS + 1]
  {
    var dots := [STRIPS, STRIPS + 1];
    var c := PlanInput(Scene(7), dots, [a]);
    forall i | i in dots
      ensures CheckLayer(i, c.info[i]) && !c.info[i].isProtected
    {
      assert i == STRIPS || i == STRIPS + 1;
    }
    assert forall i :: i in dots ==> i == STRIPS || i == STRIPS + 1;
    hide Scene, CheckLayer, Sort, Provision, DrmDisplayComposition.IsPlanFor;
    PlainStack(c);
    TwoAreSorted(STRIPS, STRIPS + 1);
    composition.PlanParts(dots, [a], [CompositionPlane(Squash, b, [])]);
  }

  /** More than 64 rectangles are counted, so what the precomposition should show at the origin is lost. */
  lemma {:induction false} OriginIsLost(composition: DrmDisplayComposition, exclude: seq<Rect>)
    requires composition.layers == Scene(7) && |exclude| >= 63 && !Excluded(exclude, Point(0, 0))
    requires composition.HasPrecomp() && composition.Dedicated() == []
             && composition.CompLayers() == [STRIPS, STRIPS + 1]
    requires composition.SeparationDefined(exclude) ==> composition.PictureRight(exclude)
    ensures composition.TooManyRects(exclude)
    ensures !ShowsStack(Scene(7), composition.preCompRegions, composition.compositionPlanes, Point(0, 0))
  {
    assert composition.SeparationDefined(exclude);
    assert Covers(Frames(Scene(7)), STRIPS, Point(0, 0));
    assert ShownByPrecomp(Frames(Scene(7)), [], [STRIPS, STRIPS + 1], Point(0, 0), STRIPS);
    assert !composition.ShownRight(exclude, Point(0, 0));
  }

  /**
   * After eight frames of the scene the strips are shown from the squash framebuffer and the two layers over the origin
   * share the other plane. Their pixel is not squashed, and the screen does not show them.
   */
  method DotsAreLost(a: HwPlane, b: HwPlane)
    returns (squash: SquashState, composition: DrmDisplayComposition, ghost exclude: seq<Rect>, ghost stable: seq<bool>)
    requires 0 in a.crtcs && 0 in b.crtcs
    ensures HasSeen(squash, 7) && composition.layers == Scene(7)
    ensures StableRight(Scene(0), Scenes(6), Scene(7), squash.regions, stable)
    ensures Decided(Scene(7), squash.regions, stable, exclude, [STRIPS, STRIPS + 1], true)
    ensures InRange(Scene(7), [STRIPS, STRIPS + 1])
    ensures composition.IsPlanFor([STRIPS, STRIPS + 1], [a], [CompositionPlane(Squash, b, [])])
    ensures composition.TooManyRects(exclude) && !Excluded(exclude, Point(0, 0))
    ensures !ShowsStack(Scene(7), composition.preCompRegions, composition.compositionPlanes, Point(0, 0))
  {
    hide HasSeen, Scene, StableRight, Decided, ShowsStack, Excluded, DrmDisplayComposition.PictureRight;
    squash := new SquashState();
    ShowFirst(squash, a, b);
    for t: nat := 0 to 6
      invariant HasSeen(squash, t)
    {
      var _, _, _, _, _ := ShowNext(squash, t, a, b);
    }
    ghost var toComposite, useSquash;
    composition, exclude, toComposite, useSquash, stable := ShowNext(squash, 6, a, b);
    LastScene(squash, exclude, toComposite, useSquash, stable);
    DotsArePrecomposed(composition, a, b);
    OriginIsLost(composition, exclude);
  }

  /** What is excluded and what is planned in frame 7. */
  lemma {:induction false} LastScene(squash: SquashState, exclude: seq<Rect>, toComposite: seq<nat>, useSquash: bool,
                                     stable: seq<bool>)
    requires HasSeen(squash, 7) && StableRight(Scene(0), Scenes(6), Scene(7), squash.regions, stable)
    requires Decided(Scene(7), squash.regions, stable, exclude, toComposite, useSquash)
    requires Ascending(toComposite) && InRange(Scene(7), toComposite)
    ensures useSquash && toComposite == [STRIPS, STRIPS + 1] && |exclude| >= 63 && !Excluded(exclude, Point(0, 0))
  {
    ReadyForNext(squash, 7);
    assert Seen(squash.regions, stable);
    hide Seen, HasSeen, Excluded, Scene, StableRects, Separates, Frames, AsRectSets;
    ManyExcluded(squash.regions, stable);
    OriginIsFree(squash.regions, stable);
    DotsAreLeft(squash.regions, stable, toComposite);
    SomeStable(squash.regions, stable, |stable|);
  }

  lemma {:induction false} SomeStable(regions: seq<Region>, stable: seq<bool>, n: nat)
    requires n <= |regions| == |stable|
    ensures StableRects(regions, stable, n) != [] ==> exists k :: 0 <= k < n && stable[k]
  {
    if n > 0 {
      SomeStable(regions, stable, n - 1);
    }
  }

  // ----- two rotated protected layers -----

  function Spun(handle: nat): Layer {
    Dot(handle).(isProtected := true, transform := {Rotate180})
  }

  ghost function On(plane: HwPlane, i: nat): CompositionPlane {
    CompositionPlane(LayerPlane, plane, [i])
  }

  /** Both get primary planes, the upper layer the lower plane. */
  lemma {:induction false} SpunAreTurnedOver(info: seq<Layer>, a: HwPlane, b: HwPlane)
    requires info == [Spun(0), Spun(1)] && a.isPrimary && b.isPrimary
    ensures InRange(info, [0, 1]) && Provision(info, [0, 1], [a, b]) == State([On(b, 1), On(a, 0)], [], [], [], [])
  {
    assert forall i :: i in [0, 1] ==> i == 0 || i == 1;
    var s := InitialState([0, 1], [a, b]);
    assert CheckLayer(0, Spun(0)) && CheckLayer(1, Spun(1));
    LimitsIdle(info, s, 0);
    SpunRotated(info, s, a, b);
    var t := State([On(b, 1), On(a, 0)], [], [], [], []);
    assert StageProtected(info, t) == t;
    assert StagePrecomp(t) == t && StageGreedy(t) == t;
  }

  lemma {:induction false} SpunRotated(info: seq<Layer>, s: State, a: HwPlane, b: HwPlane)
    requires info == [Spun(0), Spun(1)] && a.isPrimary && b.isPrimary && s == State([], [], [0, 1], [a, b], [])
    ensures InRange(info, s.layers) && StageProtectedRotated(info, s) == State([On(b, 1), On(a, 0)], [], [], [], [])
  {
    var u, t := State([On(a, 0)], [], [1], [b], []), State([On(b, 1), On(a, 0)], [], [], [], []);
    assert FirstPrimary([a, b]) == 0 && FirstPrimary([b]) == 0;
    assert PlaceRotated(s, 0) == u && PlaceRotated(u, 0) == t;
    assert Rotated(info, t, 0, 1) == (t, 1);
    assert Rotated(info, u, 0, 0) == (t, 1);
    assert Rotated(info, s, 0, -1) == Rotated(info, u, 0, 0);
  }

  lemma {:induction false} SpunFinished(info: seq<Layer>, a: HwPlane, b: HwPlane)
    requires info == [Spun(0), Spun(1)] && a.isPrimary && b.isPrimary
    ensures Given(PlanInput(info, [0, 1], [a, b]))
    ensures Provision(info, [0, 1], [a, b]).pre == []
            && Finished(Provision(info, [0, 1], [a, b]), []) == [On(b, 1), On(a, 0)]
  {
    SpunAreTurnedOver(info, a, b);
    hide Provision;
    FinishedParts(Provision(info, [0, 1], [a, b]), []);
  }

  /** The picture shows the lower layer where the upper one belongs. */
  lemma {:induction false} SpunClash(info: seq<Layer>, a: HwPlane, b: HwPlane)
    requires info == [Spun(0), Spun(1)] && a.isPrimary && b.isPrimary
    ensures InRange(info, [0, 1])
    ensures var planes := Finished(Provision(info, [0, 1], [a, b]), []);
            Clashes(info, planes, Point(0, 0)) && !ShowsStack(info, [], planes, Point(0, 0))
  {
    SpunFinished(info, a, b);
    SpunOver(info, Finished(Provision(info, [0, 1], [a, b]), []), a, b);
    NothingExcluded(Point(0, 0));
    hide Provision, Finished, Clashes, ShowsStack, Given, Dot;
    FinishedShowsStack(PlanInput(info, [0, 1], [a, b]), [], [], [], Point(0, 0));
  }

  lemma {:induction false} NothingExcluded(p: Point)
    ensures !Excluded([], p)
  {
  }

  lemma {:induction false} SpunOver(info: seq<Layer>, planes: seq<CompositionPlane>, a: HwPlane, b: HwPlane)
    requires info == [Spun(0), Spun(1)] && planes == [On(b, 1), On(a, 0)]
    ensures Clashes(info, planes, Point(0, 0))
  {
    assert planes[1].kind == LayerPlane && 0 in planes[1].sources;
    assert planes[0].kind == LayerPlane && 1 in planes[0].sources;
    assert RotatedOver(info, planes, 0, Point(0, 0)) && RotatedOver(info, planes, 1, Point(0, 0));
    assert NothingProtectedAt(info, ShownLayers(info, planes), Point(0, 0), 1);
  }
}
