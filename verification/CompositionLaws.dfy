/** From the planner's result to the picture on the screen. */
module CompositionLaws {
  import opened Geometry
  import opened Layers
  import opened CompositionTypes
  import opened HolePunch
  import opened LayerStacks
  import opened PlanStages
  import opened PlanLaws
  import opened PlanTheorems
  import opened ReleaseFences
  import Planner

  ghost predicate Sorted(s: seq<nat>) {
    forall i, j :: 0 <= i < j < |s| ==> s[i] <= s[j]
  }

  function InsertSorted(s: seq<nat>, x: nat): seq<nat> {
    if s == [] || x <= s[0] then [x] + s else [s[0]] + InsertSorted(s[1..], x)
  }

  /** Ordering source layers by z-order. */
  function Sort(s: seq<nat>): seq<nat> {
    if s == [] then [] else InsertSorted(Sort(s[1..]), s[0])
  }

  lemma {:induction false} InsertContents(s: seq<nat>, x: nat)
    ensures multiset(InsertSorted(s, x)) == multiset(s) + multiset{x}
  {
    if s != [] && x > s[0] {
      InsertContents(s[1..], x);
      assert s == [s[0]] + s[1..];
    }
  }

  lemma {:induction false} InsertKeepsSorted(s: seq<nat>, x: nat)
    requires Sorted(s)
    ensures Sorted(InsertSorted(s, x))
  {
    if s != [] && x > s[0] {
      InsertKeepsSorted(s[1..], x);
      InsertContents(s[1..], x);
      var rest := InsertSorted(s[1..], x);
      forall k | 0 <= k < |rest|
        ensures s[0] <= rest[k]
      {
        assert rest[k] in multiset(rest);
        assert rest[k] == x || rest[k] in s[1..];
      }
    }
  }

  /** Sorting keeps the contents and yields an ordered sequence. */
  lemma {:induction false} SortLaw(s: seq<nat>)
    ensures Sorted(Sort(s)) && multiset(Sort(s)) == multiset(s)
  {
    if s != [] {
      SortLaw(s[1..]);
      InsertKeepsSorted(Sort(s[1..]), s[0]);
      InsertContents(Sort(s[1..]), s[0]);
      assert s == [s[0]] + s[1..];
    }
  }

  lemma {:induction false} SortMembers(s: seq<nat>, i: nat)
    ensures i in Sort(s) <==> i in s
  {
    SortLaw(s);
    assert i in multiset(Sort(s)) <==> i in multiset(s);
  }

  lemma {:induction false} SortAscends(s: seq<nat>)
    requires forall i :: multiset(s)[i] <= 1
    ensures Ascending(Sort(s))
  {
    var r := Sort(s);
    SortLaw(s);
    forall i, j | 0 <= i < j < |r|
      ensures r[i] < r[j]
    {
      TwiceCounts(r, i, j);
      assert multiset(s)[r[i]] <= 1;
    }
  }

  lemma {:induction false} TwiceCounts(r: seq<nat>, i: nat, j: nat)
    requires i < j < |r|
    ensures r[i] == r[j] ==> multiset(r)[r[i]] >= 2
  {
    assert r == r[..i] + [r[i]] + r[i + 1..j] + [r[j]] + r[j + 1..];
  }

  // ----- the planes of a plan, painted -----

  lemma {:induction false} DedicatedPainted(frames: seq<Rect>, regions: seq<CompositionRegion>,
                                            ded: seq<CompositionPlane>, p: Point)
    requires forall k :: 0 <= k < |ded| ==> ded[k].kind == LayerPlane && |ded[k].sources| == 1
    ensures Painted(frames, regions, ded, p) == DedicatedStack(frames, SourceOf(ded), p)
  {
    if ded != [] {
      var init, last := ded[..|ded| - 1], ded[|ded| - 1];
      DedicatedPainted(frames, regions, init, p);
      assert SourceOf(ded)[..|ded| - 1] == SourceOf(init);
      assert last.sources[..0] == [];
      assert DedicatedStack(frames, last.sources, p) ==
               if Covers(frames, last.sources[0], p) then [last.sources[0]] else [];
    }
  }

  lemma {:induction false} PlanePainted(frames: seq<Rect>, regions: seq<CompositionRegion>,
                                        planes: seq<CompositionPlane>, plane: CompositionPlane, p: Point)
    ensures Painted(frames, regions, planes + [plane], p) ==
              Painted(frames, regions, planes, p) + PlaneStack(frames, regions, plane, p)
  {
    assert (planes + [plane])[..|planes|] == planes;
  }

  /** A finished composition paints its dedicated planes, then the precomposition. */
  lemma {:induction false} CompositionPainted(frames: seq<Rect>, regions: seq<CompositionRegion>,
                                              ded: seq<CompositionPlane>, pre: seq<CompositionPlane>,
                                              squash: seq<CompositionPlane>, p: Point)
    requires forall k :: 0 <= k < |ded| ==> ded[k].kind == LayerPlane && |ded[k].sources| == 1
    requires |pre| <= 1 && (pre != [] ==> pre[0].kind == Precomp) && (pre == [] ==> regions == [])
    requires |squash| <= 1 && (squash != [] ==> squash[0].kind == Squash)
    ensures Painted(frames, regions, ded + pre + squash, p) == PaintedPlan(frames, SourceOf(ded), regions, p)
  {
    DedicatedPainted(frames, regions, ded, p);
    if pre != [] {
      PlanePainted(frames, regions, ded, pre[0], p);
      assert pre == [pre[0]];
    } else {
      assert ded + pre == ded;
    }
    if squash != [] {
      PlanePainted(frames, regions, ded + pre, squash[0], p);
      assert squash == [squash[0]];
    } else {
      assert ded + pre + squash == ded + pre;
    }
  }

  // ----- the plan's order, as the picture needs it -----

  lemma {:induction false} NotInBoth(c: PlanInput, s: State, inOrder: bool, i: nat)
    requires Given(c) && Lawful(c, inOrder, s)
    ensures i in SourceOf(s.ded) ==> i !in PreSources(s)
  {
    hide SourceOf, PreSources, Shape, PlanesConserved, Capacity;
    AtMostOnce(c.all, i);
    OncePerPlace(c.all, s.layers, SourceOf(s.ded), PreSources(s), s.gone, i);
  }

  /** What is conserved and there at most once is in one place only. */
  lemma {:induction false} OncePerPlace(all: seq<nat>, layers: seq<nat>, dedicated: seq<nat>, precomp: seq<nat>,
                                        gone: seq<nat>, i: nat)
    requires Conserved(all, layers, dedicated, precomp, gone) && multiset(all)[i] <= 1
    ensures multiset(precomp)[i] <= 1
    ensures i in dedicated ==> i !in precomp && i !in gone
    ensures i in precomp ==> i !in gone
    ensures i in all <==> i in layers || i in dedicated || i in precomp || i in gone
  {
    assert multiset(layers)[i] + multiset(dedicated)[i] + multiset(precomp)[i] + multiset(gone)[i] == multiset(all)[i];
  }

  lemma {:induction false} PreSourcesDistinct(c: PlanInput, s: State, inOrder: bool)
    requires Given(c) && Lawful(c, inOrder, s)
    ensures Ascending(Sort(PreSources(s)))
  {
    hide SourceOf, PreSources, Shape, PlanesConserved, Capacity;
    forall i
      ensures multiset(PreSources(s))[i] <= 1
    {
      AtMostOnce(c.all, i);
      OncePerPlace(c.all, s.layers, SourceOf(s.ded), PreSources(s), s.gone, i);
    }
    SortAscends(PreSources(s));
  }

  /** The order of the plan: rotated protected layers, then the others on planes, then the precomposition. */
  lemma {:induction false} PlanIsOrdered(c: PlanInput) returns (upright: seq<nat>)
    requires Given(c)
    ensures var t := Provision(c.info, c.all, c.usable);
            SourceOf(t.ded) == RotatedPart(c) + upright
              && OrderedPlan(c.info, RotatedPart(c), upright, Sort(PreSources(t)))
    ensures forall d :: d in upright ==> d < |c.info| && !IsRotatedProtected(c.info[d])
    ensures forall r :: r in RotatedPart(c) ==> r < |c.info| && IsRotatedProtected(c.info[r])
  {
    var t := Provision(c.info, c.all, c.usable);
    hide SourceOf, PreSources, Lawful, Given, RotatedPart, AfterRotated, Provision, Sort;
    upright := PlanShape(c);
    forall d | d in SourceOf(t.ded)
      ensures d < |c.info|
    {
      PlanOrder(c, d, 0);
    }
    assert forall r :: r in RotatedPart(c) || r in upright ==> r in SourceOf(t.ded);
    forall d | d in upright
      ensures !IsRotatedProtected(c.info[d]) && d > Mark(RotatedPart(c))
    {
      AfterRotatedMembers(c, d);
    }
    forall r | r in RotatedPart(c)
      ensures IsRotatedProtected(c.info[r])
    {
      AfterRotatedMembers(c, r);
    }
    RotatedPartDescends(c);
    forall i | i in Sort(PreSources(t))
      ensures i !in SourceOf(t.ded) && (IsProtected(c.info, i) ==> i <= Mark(RotatedPart(c)))
    {
      SortMembers(PreSources(t), i);
      PlanLawful(c);
      NotInBoth(c, t, NoneRotated(c.info, c.all), i);
      if IsProtected(c.info, i) {
        PrecomposedProtected(c, i);
      }
    }
    forall d, i | d in upright && i in Sort(PreSources(t)) && !IsProtected(c.info, d)
      ensures d < i
    {
      SortMembers(PreSources(t), i);
      PlanOrder(c, d, i);
    }
    OrderedParts(c.info, RotatedPart(c), upright, Sort(PreSources(t)));
  }

  lemma {:induction false} RotatedPartDescends(c: PlanInput)
    requires Given(c)
    ensures Descending(RotatedPart(c))
  {
    hide Given, RotatedPart, AfterRotated;
    if |c.info| > 0 {
      AfterRotatedMembers(c, 0);
    } else {
      var upright := PlanShape(c);
      RotatedInRange(c, upright);
    }
  }

  lemma {:induction false} RotatedInRange(c: PlanInput, upright: seq<nat>)
    requires Given(c) && c.info == [] && SourceOf(Provision(c.info, c.all, c.usable).ded) == RotatedPart(c) + upright
    ensures RotatedPart(c) == []
  {
    hide Given, RotatedPart, Provision, SourceOf;
    FirstIsMember(RotatedPart(c));
    forall r | r in RotatedPart(c) + upright
      ensures r < |c.info|
    {
      PlanOrder(c, r, 0);
    }
    assert forall r :: r in RotatedPart(c) ==> r in RotatedPart(c) + upright;
  }

  lemma {:induction false} OrderedParts(info: seq<Layer>, rotated: seq<nat>, upright: seq<nat>, comp: seq<nat>)
    requires Descending(rotated) && Ascending(upright)
    requires forall r :: r in rotated ==> r < |info| && IsRotatedProtected(info[r])
    requires forall d :: d in upright ==> d > Mark(rotated)
    requires forall i :: i in comp ==> i !in rotated + upright && (IsProtected(info, i) ==> i <= Mark(rotated))
    requires forall d, i :: d in upright && i in comp && !IsProtected(info, d) ==> d < i
    ensures OrderedPlan(info, rotated, upright, comp)
  {
    FirstIsMember(rotated);
    forall r | r in rotated
      ensures r <= Mark(rotated)
    {
      var k :| 0 <= k < |rotated| && rotated[k] == r;
    }
    forall i | i in comp
      ensures i !in rotated && i !in upright
    {
      assert i in rotated + upright <==> i in rotated || i in upright;
    }
  }

  function WithSortedSources(planes: seq<CompositionPlane>): (r: seq<CompositionPlane>)
    ensures |r| == |planes|
    ensures forall k :: 0 <= k < |r| ==> r[k] == planes[k].(sources := Sort(planes[k].sources))
  {
    seq(|planes|, k requires 0 <= k < |planes| => planes[k].(sources := Sort(planes[k].sources)))
  }

  lemma {:induction false} SingleIsSorted(s: seq<nat>)
    requires |s| <= 1
    ensures Sort(s) == s
  {
    if s != [] {
      assert Sort(s[1..]) == [];
    }
  }

  lemma {:induction false} SortedComposition(ded: seq<CompositionPlane>, pre: seq<CompositionPlane>,
                                             squash: seq<CompositionPlane>)
    requires forall k :: 0 <= k < |ded| ==> |ded[k].sources| == 1
    requires forall k :: 0 <= k < |squash| ==> squash[k].sources == []
    ensures WithSortedSources(ded + pre + squash) == ded + WithSortedSources(pre) + squash
  {
    var sorted := WithSortedSources(ded + pre + squash);
    forall k | 0 <= k < |sorted|
      ensures sorted[k] == (ded + WithSortedSources(pre) + squash)[k]
    {
      if k < |ded| {
        SingleIsSorted(ded[k].sources);
      } else if k >= |ded| + |pre| {
        SingleIsSorted((ded + pre + squash)[k].sources);
      }
    }
  }

  // ----- reading the plan back from the finished composition -----

  ghost function Finished(t: State, squash: seq<CompositionPlane>): seq<CompositionPlane> {
    WithSortedSources(t.ded + t.pre + squash)
  }

  lemma {:induction false} FinishedParts(t: State, squash: seq<CompositionPlane>)
    requires Shape(t) && |squash| <= 1 && (squash != [] ==> squash[0].kind == Squash && squash[0].sources == [])
    ensures Finished(t, squash) == t.ded + WithSortedSources(t.pre) + squash
    ensures Planner.FindPrecomp(Finished(t, squash)) == if t.pre == [] then |Finished(t, squash)| else |t.ded|
    ensures t.pre != [] ==>
              Finished(t, squash)[..|t.ded|] == t.ded && Finished(t, squash)[|t.ded|].sources == Sort(PreSources(t))
  {
    SortedComposition(t.ded, t.pre, squash);
    var pre := WithSortedSources(t.pre);
    if t.pre != [] {
      assert t.ded + pre + squash == t.ded + (pre + squash);
      Planner.PrecompIsFirst(t.ded, pre + squash);
    } else {
      assert t.ded + pre + squash == (t.ded + squash) + [];
      Planner.PrecompIsFirst(t.ded + squash, []);
    }
  }

  lemma {:induction false} FinishedAt(t: State, squash: seq<CompositionPlane>, k: nat)
    requires Shape(t) && |squash| <= 1 && (squash != [] ==> squash[0].kind == Squash && squash[0].sources == [])
    requires k < |Finished(t, squash)|
    ensures k < |t.ded| ==> Finished(t, squash)[k] == t.ded[k]
    ensures k >= |t.ded| ==> Finished(t, squash)[k].kind != LayerPlane
    ensures |t.ded| <= |Finished(t, squash)|
  {
    SortedComposition(t.ded, t.pre, squash);
    hide Sort;
  }

  lemma {:induction false} OnPlaneIsDedicated(t: State, squash: seq<CompositionPlane>, i: nat)
    requires Shape(t) && |squash| <= 1 && (squash != [] ==> squash[0].kind == Squash && squash[0].sources == [])
    ensures OnPlane(Finished(t, squash), i) <==> i in SourceOf(t.ded)
  {
    hide Finished;
    var planes := Finished(t, squash);
    if i in SourceOf(t.ded) {
      var k :| 0 <= k < |t.ded| && SourceOf(t.ded)[k] == i;
      assert t.ded[k].sources[0] == i;
      assert k < |planes| by { PartCount(t, squash); }
      FinishedAt(t, squash, k);
    }
    if OnPlane(planes, i) {
      var k :| 0 <= k < |planes| && planes[k].kind == LayerPlane && i in planes[k].sources;
      FinishedAt(t, squash, k);
      assert SourceOf(t.ded)[k] == i;
    }
  }

  lemma {:induction false} PartCount(t: State, squash: seq<CompositionPlane>)
    ensures |Finished(t, squash)| == |t.ded| + |t.pre| + |squash|
  {
  }

  ghost predicate Precomposed(planes: seq<CompositionPlane>, i: nat) {
    exists k :: 0 <= k < |planes| && planes[k].kind == Precomp && i in planes[k].sources
  }

  lemma {:induction false} PrecomposedIsPre(t: State, squash: seq<CompositionPlane>, i: nat)
    requires Shape(t) && |squash| <= 1 && (squash != [] ==> squash[0].kind == Squash && squash[0].sources == [])
    ensures Precomposed(Finished(t, squash), i) <==> i in PreSources(t)
  {
    hide Sort, SourceOf;
    var planes := Finished(t, squash);
    assert forall k :: 0 <= k < |planes| ==> planes[k].kind == (t.ded + t.pre + squash)[k].kind;
    if i in PreSources(t) {
      assert planes[|t.ded|].sources == Sort(PreSources(t));
      SortMembers(PreSources(t), i);
    }
    if Precomposed(planes, i) {
      var k :| 0 <= k < |planes| && planes[k].kind == Precomp && i in planes[k].sources;
      assert k == |t.ded|;
      SortMembers(PreSources(t), i);
    }
  }

  lemma {:induction false} SameStack(frames: seq<Rect>, who: set<nat>, other: set<nat>, p: Point)
    requires forall i :: Covers(frames, i, p) ==> (i in who <==> i in other)
    ensures FullStack(frames, who, p) == FullStack(frames, other, p)
  {
    FullStackMembers(frames, who, p);
    FullStackMembers(frames, other, p);
    hide FullStack, Ascending;
    AscendingUnique(FullStack(frames, who, p), FullStack(frames, other, p));
  }

  /** All layers but protected ones that the plan has dropped. */
  ghost function ShownLayers(info: seq<Layer>, planes: seq<CompositionPlane>): (r: set<nat>)
    ensures forall i: nat :: i in r <==>
              i < |info| && !(info[i].isProtected && !OnPlane(planes, i) && !Precomposed(planes, i))
  {
    var all := set i | 0 <= i < |info| && !(info[i].isProtected && !OnPlane(planes, i) && !Precomposed(planes, i));
    all
  }

  /** The picture a finished composition gives at one pixel is the picture of the layer stack. */
  ghost predicate ShowsStack(info: seq<Layer>, regions: seq<CompositionRegion>, planes: seq<CompositionPlane>,
                             p: Point) {
    Visible(info, Painted(Frames(info), regions, planes, p)) ==
      Visible(info, FullStack(Frames(info), ShownLayers(info, planes), p))
  }

  /** A rotated protected layer with a plane of its own that covers the pixel. */
  ghost predicate RotatedOver(info: seq<Layer>, planes: seq<CompositionPlane>, r: nat, p: Point) {
    OnPlane(planes, r) && r < |info| && IsRotatedProtected(info[r]) && Covers(Frames(info), r, p)
  }

  /**
   * Two rotated protected layers with planes cover the pixel and nothing protected above hides them: their planes are
   * stacked the wrong way round.
   */
  ghost predicate Clashes(info: seq<Layer>, planes: seq<CompositionPlane>, p: Point) {
    exists r, r' :: RotatedOver(info, planes, r, p) && RotatedOver(info, planes, r', p) && r < r'
                    && NothingProtectedAt(info, ShownLayers(info, planes), p, r')
  }

  /** With a plane to put layers on, the layers shown are those that have been placed. */
  lemma {:induction false} ShownArePlaced(c: PlanInput, squash: seq<CompositionPlane>, i: nat)
    requires Given(c) && c.usable != [] && i in c.all
    requires |squash| <= 1 && (squash != [] ==> squash[0].kind == Squash && squash[0].sources == [])
    ensures var t := Provision(c.info, c.all, c.usable);
            i in ShownLayers(c.info, Finished(t, squash)) <==> i in AllPlaced(SourceOf(t.ded), Sort(PreSources(t)))
  {
    hide SourceOf, PreSources, Finished, Provision, Sort, PlanesConserved, Ascending;
    var t := Provision(c.info, c.all, c.usable);
    PlanLawful(c);
    AtMostOnce(c.all, i) by { GivenAscends(c); }
    OncePerPlace(c.all, t.layers, SourceOf(t.ded), PreSources(t), t.gone, i);
    OnPlaneIsDedicated(t, squash, i);
    PrecomposedIsPre(t, squash, i);
    SortMembers(PreSources(t), i);
  }

  lemma {:induction false} GivenAscends(c: PlanInput)
    requires Given(c)
    ensures Ascending(c.all)
  {
  }

  /** When every layer over the pixel took part in the plan, it does not matter which others did. */
  lemma {:induction false} PlannedStackIsWholeStack(c: PlanInput, squash: seq<CompositionPlane>, p: Point)
    requires Given(c) && c.usable != []
    requires |squash| <= 1 && (squash != [] ==> squash[0].kind == Squash && squash[0].sources == [])
    requires forall i :: Covers(Frames(c.info), i, p) ==> i in c.all
    ensures var t := Provision(c.info, c.all, c.usable);
            var placed := AllPlaced(SourceOf(t.ded), Sort(PreSources(t)));
            var shown := ShownLayers(c.info, Finished(t, squash));
            && FullStack(Frames(c.info), placed, p) == FullStack(Frames(c.info), shown, p)
            && (ClashAt(c.info, RotatedPart(c), placed, p) <==> Clashes(c.info, Finished(t, squash), p))
  {
    var t := Provision(c.info, c.all, c.usable);
    hide Given, Provision, SourceOf, PreSources, Sort, Finished, Covers, FullStack, RotatedPart, AllPlaced, ShownLayers,
         OnPlane;
    var placed, shown := AllPlaced(SourceOf(t.ded), Sort(PreSources(t))), ShownLayers(c.info, Finished(t, squash));
    forall i | Covers(Frames(c.info), i, p)
      ensures i in placed <==> i in shown
    {
      ShownArePlaced(c, squash, i);
    }
    SameStack(Frames(c.info), placed, shown, p);
    OnlyRotatedOver(c, squash, p);
    assert forall x :: NothingProtectedAt(c.info, placed, p, x) <==> NothingProtectedAt(c.info, shown, p, x);
  }

  lemma {:induction false} BackwardsMembers(s: seq<nat>)
    ensures forall i :: i in Backwards(s) <==> i in s
  {
    if s != [] {
      BackwardsMembers(s[1..]);
      assert s == [s[0]] + s[1..];
    }
  }

  /**
   * Where a plan clashes, told by what the planner is given: two of the rotated
   * protected layers that are supported and among the first for which primary planes
   * are left cover the pixel, with nothing protected shown above the higher one.
   */
  lemma {:induction false} ClashesFromGiven(c: PlanInput, squash: seq<CompositionPlane>, p: Point)
    requires Given(c) && |squash| <= 1 && (squash != [] ==> squash[0].kind == Squash && squash[0].sources == [])
    ensures var planes := Finished(Provision(c.info, c.all, c.usable), squash);
            Clashes(c.info, planes, p) <==> ClashAt(c.info, RotatedGiven(c), ShownLayers(c.info, planes), p)
  {
    var planes := Finished(Provision(c.info, c.all, c.usable), squash);
    RotatedPartIsGiven(c);
    BackwardsMembers(RotatedGiven(c));
    OnlyRotatedOver(c, squash, p);
    hide Given, Provision, Finished, Covers, RotatedGiven, Backwards, OnPlane, ShownLayers;
  }

  /**
   * A layer is over the pixel on a plane for its rotation exactly when it is in the rotated part and covers the pixel.
   */
  lemma {:induction false} OnlyRotatedOver(c: PlanInput, squash: seq<CompositionPlane>, p: Point)
    requires Given(c) && |squash| <= 1 && (squash != [] ==> squash[0].kind == Squash && squash[0].sources == [])
    ensures forall r: nat :: RotatedOver(c.info, Finished(Provision(c.info, c.all, c.usable), squash), r, p)
                        <==> r in RotatedPart(c) && Covers(Frames(c.info), r, p)
  {
    var t := Provision(c.info, c.all, c.usable);
    var upright := PlanIsOrdered(c);
    assert Shape(t) by { PlanLawful(c); }
    hide Given, Provision, SourceOf, PreSources, Sort, Finished, Covers, RotatedPart, OnPlane;
    forall r: nat
      ensures RotatedOver(c.info, Finished(t, squash), r, p) <==> r in RotatedPart(c) && Covers(Frames(c.info), r, p)
    {
      OnPlaneIsDedicated(t, squash, r);
      assert r in RotatedPart(c) + upright <==> r in RotatedPart(c) || r in upright;
    }
  }

  /** A CRTC with a single primary plane never shows a clash. */
  lemma {:induction false} OnePrimaryNoClash(c: PlanInput, squash: seq<CompositionPlane>, p: Point)
    requires Given(c) && c.usable != [] && OnePrimary(c.usable)
    requires |squash| <= 1 && (squash != [] ==> squash[0].kind == Squash && squash[0].sources == [])
    requires forall i :: Covers(Frames(c.info), i, p) ==> i in c.all
    ensures !Clashes(c.info, Finished(Provision(c.info, c.all, c.usable), squash), p)
  {
    OnePrimaryOneRotated(c);
    PlannedStackIsWholeStack(c, squash, p);
    hide Given, Provision, Finished, Clashes, RotatedPart, AllPlaced, SourceOf, PreSources, Sort;
  }

  /** Every unprotected layer over the pixel is on a plane of its own or precomposed. */
  ghost predicate Housed(info: seq<Layer>, planes: seq<CompositionPlane>, p: Point) {
    forall i: nat :: Covers(Frames(info), i, p) && !info[i].isProtected ==> OnPlane(planes, i) || Precomposed(planes, i)
  }

  /** With a plane to put layers on, every unprotected layer has a place. */
  lemma {:induction false} PlannedAreHoused(c: PlanInput, squash: seq<CompositionPlane>, p: Point)
    requires Given(c) && c.usable != []
    requires |squash| <= 1 && (squash != [] ==> squash[0].kind == Squash && squash[0].sources == [])
    requires forall i :: Covers(Frames(c.info), i, p) ==> i in c.all
    ensures Housed(c.info, Finished(Provision(c.info, c.all, c.usable), squash), p)
  {
    hide Finished, Sort, OnPlane, Precomposed, AllPlaced, SourceOf, PreSources, PlanesConserved;
    var t := Provision(c.info, c.all, c.usable);
    PlanLawful(c);
    hide Given, Provision;
    forall i: nat | Covers(Frames(c.info), i, p) && !c.info[i].isProtected
      ensures OnPlane(Finished(t, squash), i) || Precomposed(Finished(t, squash), i)
    {
      AtMostOnce(c.all, i) by { GivenAscends(c); }
      OncePerPlace(c.all, t.layers, SourceOf(t.ded), PreSources(t), t.gone, i);
      OnPlaneIsDedicated(t, squash, i);
      PrecomposedIsPre(t, squash, i);
    }
  }

  lemma {:induction false} NothingPlaced(c: PlanInput)
    requires Given(c) && c.usable == []
    ensures var t := Provision(c.info, c.all, c.usable);
            t.ded == [] && t.pre == []
  {
    hide Given, Provision;
    PlanLawful(c);
  }

  /** Without a plane for layers nothing is shown, which is right only where nothing unprotected is. */
  lemma {:induction false} NoPlanesShowStack(c: PlanInput, squash: seq<CompositionPlane>, p: Point)
    requires Given(c) && c.usable == []
    requires |squash| <= 1 && (squash != [] ==> squash[0].kind == Squash && squash[0].sources == [])
    ensures var planes := Finished(Provision(c.info, c.all, c.usable), squash);
            && !Clashes(c.info, planes, p)
            && (ShowsStack(c.info, [], planes, p) <==> Housed(c.info, planes, p))
            && (Housed(c.info, planes, p) <==> forall i: nat :: Covers(Frames(c.info), i, p) ==> c.info[i].isProtected)
  {
    NothingPlaced(c);
    FinishedPainted(c, [], squash, p);
    hide Given;
    var t := Provision(c.info, c.all, c.usable);
    hide Provision;
    OnlySquash(t, squash);
    NothingPainted(Frames(c.info), t.ded, p);
    hide Finished, Painted, PaintedPlan;
    NothingShown(c.info, Finished(t, squash), p);
  }

  lemma {:induction false} OnlySquash(t: State, squash: seq<CompositionPlane>)
    requires t.ded == [] && t.pre == [] && |squash| <= 1
             && (squash != [] ==> squash[0].kind == Squash && squash[0].sources == [])
    ensures forall i: nat :: !OnPlane(Finished(t, squash), i) && !Precomposed(Finished(t, squash), i)
  {
    SortedComposition([], [], squash);
    assert Finished(t, squash) == squash;
  }

  lemma {:induction false} NothingPainted(frames: seq<Rect>, ded: seq<CompositionPlane>, p: Point)
    requires ded == []
    ensures PaintedPlan(frames, SourceOf(ded), [], p) == []
  {
  }

  lemma {:induction false} NothingShown(info: seq<Layer>, planes: seq<CompositionPlane>, p: Point)
    requires forall i: nat :: !OnPlane(planes, i) && !Precomposed(planes, i)
    requires Painted(Frames(info), [], planes, p) == []
    ensures !Clashes(info, planes, p)
    ensures ShowsStack(info, [], planes, p) <==> Housed(info, planes, p)
    ensures Housed(info, planes, p) <==> forall i: nat :: Covers(Frames(info), i, p) ==> info[i].isProtected
  {
    var full := FullStack(Frames(info), ShownLayers(info, planes), p);
    FullStackMembers(Frames(info), ShownLayers(info, planes), p);
    FirstIsMember(full);
    VisibleIsEmpty(info, full);
    VisibleIsEmpty(info, []);
    hide FullStack, Painted, Visible, OnPlane, Precomposed, Ascending;
  }

  lemma {:induction false} VisibleIsEmpty(info: seq<Layer>, s: seq<nat>)
    ensures Visible(info, s) == [] <==> s == []
  {
  }

  /** Scanning out a finished composition paints its dedicated layers and then the regions of the precomposition. */
  lemma {:induction false} FinishedPainted(c: PlanInput, regions: seq<CompositionRegion>, squash: seq<CompositionPlane>,
                                           p: Point)
    requires Given(c) && (Provision(c.info, c.all, c.usable).pre == [] ==> regions == [])
    requires |squash| <= 1 && (squash != [] ==> squash[0].kind == Squash && squash[0].sources == [])
    ensures var t := Provision(c.info, c.all, c.usable);
            Painted(Frames(c.info), regions, Finished(t, squash), p) ==
              PaintedPlan(Frames(c.info), SourceOf(t.ded), regions, p)
  {
    var t := Provision(c.info, c.all, c.usable);
    assert Shape(t) by { PlanLawful(c); }
    hide Given, Provision, SourceOf, Painted, PaintedPlan;
    SortedComposition(t.ded, t.pre, squash);
    CompositionPainted(Frames(c.info), regions, t.ded, WithSortedSources(t.pre), squash, p);
  }

  /**
   * End to end, for a finished composition and the regions punched for it: outside the excluded regions the screen
   * shows the layer stack exactly where no rotated protected layers clash.
   */
  lemma {:induction false} FinishedShowsStack(c: PlanInput, exclude: seq<Rect>, regions: seq<CompositionRegion>,
                                              squash: seq<CompositionPlane>, p: Point)
    requires Given(c) && c.usable != []
    requires |squash| <= 1 && (squash != [] ==> squash[0].kind == Squash && squash[0].sources == [])
    requires var t := Provision(c.info, c.all, c.usable);
             if t.pre == [] then regions == []
             else Punched(Frames(c.info), exclude, SourceOf(t.ded), Sort(PreSources(t)), regions)
    requires !Excluded(exclude, p) && forall i :: Covers(Frames(c.info), i, p) ==> i in c.all
    ensures var t := Provision(c.info, c.all, c.usable);
            ShowsStack(c.info, regions, Finished(t, squash), p) <==> !Clashes(c.info, Finished(t, squash), p)
  {
    var t := Provision(c.info, c.all, c.usable);
    if t.pre == [] {
      assert Punched(Frames(c.info), exclude, SourceOf(t.ded), [], []);
    }
    hide Punched, Visible, Painted, PaintedPlan, FullStack, Given, Covers, Excluded, OrderedPlan, Clashes, ClashAt,
         Provision, SourceOf, Finished, RotatedPart, AllPlaced;
    var upright := PlanIsOrdered(c);
    FinishedPainted(c, regions, squash, p);
    PlanShowsStack(c.info, exclude, RotatedPart(c), upright, Sort(PreSources(t)), regions, p);
    PlannedStackIsWholeStack(c, squash, p);
  }

  /**
   * With too many rectangles nothing is precomposed, and the
   * picture is right exactly where, in addition, nothing had to be.
   */
  lemma {:induction false} OverflowShowsStack(c: PlanInput, squash: seq<CompositionPlane>, p: Point)
    requires Given(c) && c.usable != []
    requires |squash| <= 1 && (squash != [] ==> squash[0].kind == Squash && squash[0].sources == [])
    requires forall i :: Covers(Frames(c.info), i, p) ==> i in c.all
    ensures var t := Provision(c.info, c.all, c.usable);
            (ShowsStack(c.info, [], Finished(t, squash), p)
             <==> (forall i :: !ShownByPrecomp(Frames(c.info), SourceOf(t.ded), Sort(PreSources(t)), p, i))
                  && !Clashes(c.info, Finished(t, squash), p))
  {
    var t := Provision(c.info, c.all, c.usable);
    hide Visible, Painted, PaintedPlan, FullStack, Given, Covers, OrderedPlan, Clashes, ClashAt, Provision, SourceOf,
         Finished, RotatedPart, AllPlaced, ShownByPrecomp;
    var upright := PlanIsOrdered(c);
    FinishedPainted(c, [], squash, p);
    NoRegionsShowStack(c.info, RotatedPart(c), upright, Sort(PreSources(t)), p);
    PlannedStackIsWholeStack(c, squash, p);
  }

  // ----- how much there can be of everything -----

  lemma {:induction false} AscendingBounded(s: seq<nat>, n: nat)
    requires Ascending(s) && forall k :: 0 <= k < |s| ==> s[k] < n
    ensures |s| <= n
  {
    if s != [] {
      var init := s[..|s| - 1];
      forall k | 0 <= k < |init|
        ensures init[k] < s[|s| - 1]
      {
      }
      AscendingBounded(init, s[|s| - 1]);
    }
  }

  lemma {:induction false} PlanSizes(c: PlanInput)
    requires Given(c)
    ensures var t := Provision(c.info, c.all, c.usable);
            && |t.ded| <= |c.usable| && |t.ded| + |PreSources(t)| <= |c.info|
            && |Sort(PreSources(t))| == |PreSources(t)|
            && Ascending(Sort(PreSources(t)))
            && (forall i :: i in SourceOf(t.ded) || i in Sort(PreSources(t)) ==> i < |c.info|)
  {
    var t := Provision(c.info, c.all, c.usable);
    PlanLawful(c);
    assert forall k :: 0 <= k < |c.all| ==> c.all[k] in c.all;
    AscendingBounded(c.all, |c.info|);
    assert |multiset(c.all)| ==
             |multiset(t.layers)| + |multiset(SourceOf(t.ded))| + |multiset(PreSources(t))| + |multiset(t.gone)|;
    assert |multiset(c.usable)| == |multiset(HardwareOf(t.ded))| + |multiset(t.planes)| + |multiset(HardwareOf(t.pre))|;
    PreSourcesDistinct(c, t, NoneRotated(c.info, c.all));
    SortLaw(PreSources(t));
    assert |multiset(Sort(PreSources(t)))| == |Sort(PreSources(t))|;
    forall i | i in SourceOf(t.ded) || i in Sort(PreSources(t))
      ensures i < |c.info|
    {
      SortMembers(PreSources(t), i);
      SourcesInRange(c, NoneRotated(c.info, c.all), t, i);
    }
  }

  /** The planes of the finished composition are among the usable ones, the squash plane included. */
  lemma {:induction false} FinishedPlanes(c: PlanInput, usable: seq<HwPlane>, squash: seq<CompositionPlane>)
    requires Given(c) && usable == c.usable + HardwareOf(squash)
    requires |squash| <= 1 && (squash != [] ==> squash[0].kind == Squash && squash[0].sources == [])
    ensures multiset(HardwareOf(Finished(Provision(c.info, c.all, c.usable), squash))) <= multiset(usable)
  {
    var t := Provision(c.info, c.all, c.usable);
    PlanLawful(c);
    assert multiset(HardwareOf(t.ded)) + multiset(t.planes) + multiset(HardwareOf(t.pre)) == multiset(c.usable);
    hide Lawful, WithSortedSources, HardwareOf;
    HardwareKept(t.ded + t.pre + squash);
    HardwareConcat(t.ded + t.pre, squash);
    HardwareConcat(t.ded, t.pre);
    PartsWithin(HardwareOf(t.ded), t.planes, HardwareOf(t.pre), HardwareOf(squash), c.usable);
  }

  lemma {:induction false} HardwareKept(planes: seq<CompositionPlane>)
    ensures HardwareOf(WithSortedSources(planes)) == HardwareOf(planes)
  {
  }

  lemma {:induction false} HardwareConcat(a: seq<CompositionPlane>, b: seq<CompositionPlane>)
    ensures HardwareOf(a + b) == HardwareOf(a) + HardwareOf(b)
  {
  }

  lemma {:induction false} PartsWithin<T>(a: seq<T>, b: seq<T>, c: seq<T>, d: seq<T>, all: seq<T>)
    requires multiset(a) + multiset(b) + multiset(c) == multiset(all)
    ensures multiset(a + c + d) <= multiset(all + d)
  {
  }
}
