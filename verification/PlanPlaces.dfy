/** Where a plan puts every layer, told by what the planner is given. */
module PlanPlaces {
  import opened Layers
  import opened CompositionTypes
  import opened PlanStages
  import opened PlanLaws
  import opened PlanTheorems

  /** The highest layer that has a plane for its rotation, or -1. */
  ghost function Top(c: PlanInput): int
    requires Given(c)
  {
    Mark(RotatedPart(c))
  }

  ghost predicate IsSupported(c: PlanInput, i: nat) {
    i in c.all && i < |c.info| && CheckLayer(i, c.info[i])
  }

  /** Protected and not rotated, above all layers that have a plane for their rotation. */
  ghost predicate IsUpright(c: PlanInput, i: nat)
    requires Given(c)
  {
    IsSupported(c, i) && c.info[i].isProtected && c.info[i].transform == {} && i > Top(c)
  }

  /** Precomposed whatever planes there are: not supported, or below a protected layer. */
  ghost predicate Joins(c: PlanInput, i: nat)
    requires Given(c)
  {
    && i in c.all && i < |c.info|
    && (|| (!c.info[i].isProtected && !IsSupported(c, i))
        || JoinsBelowTop(c, i)
        || (!c.info[i].isProtected && exists u: nat :: IsUpright(c, u) && i < u))
  }

  ghost predicate JoinsBelowTop(c: PlanInput, i: nat)
    requires Given(c)
  {
    IsSupported(c, i) && !(c.info[i].isProtected && c.info[i].transform != {}) && i < Top(c)
  }

  /** Unprotected, supported, and below everything that is precomposed anyway. */
  ghost predicate IsRest(c: PlanInput, i: nat)
    requires Given(c)
  {
    IsSupported(c, i) && !c.info[i].isProtected && forall j: nat :: Joins(c, j) ==> i < j
  }

  // ----- after the stage for rotated layers -----

  lemma {:induction false} LimitsMembers(c: PlanInput, i: nat)
    requires Given(c) && c.usable != []
    ensures var s := AfterLimits(c.info, c.all, c.usable);
            && (i in s.layers <==> IsSupported(c, i))
            && (i < |c.info| ==>
                  (i in PreSources(s) <==> i in c.all && !c.info[i].isProtected && !IsSupported(c, i)))
  {
    hide Lawful;
    InitialLawful(c);
    AfterLimitsLaw(c, i);
    if i < |c.info| {
      NvLimitsMembers(c, true, InitialState(c.all, c.usable), 0, i);
    }
  }

  lemma {:induction false} NotTop(c: PlanInput, i: nat)
    requires Given(c) && i < |c.info| && !(c.info[i].isProtected && c.info[i].transform != {})
    ensures i != Top(c)
  {
    hide Descending;
    if RotatedPart(c) != [] {
      assert RotatedPart(c)[0] in RotatedPart(c);
      AfterRotatedMembers(c, i);
    }
  }

  lemma {:induction false} RotatedStage(c: PlanInput, i: nat)
    requires Given(c) && c.usable != [] && i < |c.info|
    ensures var s := AfterRotated(c);
            && (i in s.layers <==>
                  IsSupported(c, i) && !(c.info[i].isProtected && c.info[i].transform != {}) && i > Top(c))
            && (i in PreSources(s) <==>
                  (i in c.all && !c.info[i].isProtected && !IsSupported(c, i)) || JoinsBelowTop(c, i))
  {
    hide Lawful, SourceOf, Descending, CheckLayer;
    var s := AfterLimits(c.info, c.all, c.usable);
    AfterLimitsLaw(c, i);
    LimitsMembers(c, i);
    OrderOnlyWeakens(c, s, true);
    NothingDedicated(s.ded);
    EmptyAscends();
    RotatedDescends(c, s, 0, -1);
    RotatedLawful(c, s, 0, -1);
    RotatedMembers(c, s, 0, -1, i);
    var (t, z) := Rotated(c.info, s, 0, -1);
    if z != -1 {
      BelowLawful(c, false, t, 0, z);
      BelowMembers(c, false, t, 0, z, i);
    }
    if !(c.info[i].isProtected && c.info[i].transform != {}) {
      NotTop(c, i);
    }
  }

  // ----- the stage for protected layers -----

  function ProtectedOnes(info: seq<Layer>, layers: seq<nat>): (r: seq<nat>)
    requires InRange(info, layers)
    ensures forall i :: i in r <==> i in layers && info[i].isProtected
  {
    if layers == [] then []
    else
      assert layers[0] in layers && forall i :: i in layers <==> i == layers[0] || i in layers[1..];
      (if info[layers[0]].isProtected then [layers[0]] else []) + ProtectedOnes(info, layers[1..])
  }

  lemma {:induction false} ProtectedOnesAscend(info: seq<Layer>, layers: seq<nat>)
    requires InRange(info, layers) && Ascending(layers)
    ensures Ascending(ProtectedOnes(info, layers))
  {
    if layers != [] {
      assert forall i :: i in layers[1..] ==> i in layers;
      var rest := ProtectedOnes(info, layers[1..]);
      ProtectedOnesAscend(info, layers[1..]);
      forall k | 0 <= k < |rest|
        ensures layers[0] < rest[k]
      {
        assert rest[k] in layers[1..];
      }
    }
  }

  /** What placing the protected layers `ones` does: the lowest get the lowest planes. */
  ghost predicate PlacedInTurn(ones: seq<nat>, s: State, t: State) {
    var m := Min(|ones|, |s.planes|);
    SourceOf(t.ded) == SourceOf(s.ded) + ones[..m] && t.planes == s.planes[m..]
  }

  lemma {:induction false} DedicatePlaces(x: nat, rest: seq<nat>, s: State, k: nat, t: State)
    requires k < |s.layers| && s.layers[k] == x && PlacedInTurn(rest, Dedicate(s, k), t)
    ensures PlacedInTurn([x] + rest, s, t)
  {
    if s.planes != [] {
      Appended(s.ded, CompositionPlane(LayerPlane, s.planes[0], [x]), x);
      var m := Min(|rest|, |s.planes| - 1);
      assert ([x] + rest)[..m + 1] == [x] + rest[..m];
      hide SourceOf;
      assert SourceOf(s.ded) + [x] + rest[..m] == SourceOf(s.ded) + ([x] + rest[..m]);
      RestOfRest(s.planes, m);
    }
  }

  lemma {:induction false} NextProtected(info: seq<Layer>, layers: seq<nat>, k: nat)
    requires InRange(info, layers) && k < |layers|
    ensures InRange(info, layers[k..]) && InRange(info, layers[k + 1..]) && layers[k] < |info|
    ensures ProtectedOnes(info, layers[k..])
         == (if info[layers[k]].isProtected then [layers[k]] else []) + ProtectedOnes(info, layers[k + 1..])
  {
    InRangeParts(info, layers, k);
    InRangeParts(info, layers, k + 1);
    assert layers[k..][0] == layers[k] && layers[k..][1..] == layers[k + 1..];
  }

  /** The layers of `s` from position `k` on are in range, and the protected ones of them are placed in turn. */
  ghost predicate TailPlaced(info: seq<Layer>, s: State, k: nat, t: State)
    requires k <= |s.layers|
  {
    InRange(info, s.layers[k..]) && PlacedInTurn(ProtectedOnes(info, s.layers[k..]), s, t)
  }

  lemma {:induction false} ProtectedPlaces(c: PlanInput, inOrder: bool, s: State, k: nat, z: int)
    requires Lawful(c, inOrder, s) && k <= |s.layers|
    ensures TailPlaced(c.info, s, k, Protected(c.info, s, k, z).0)
    decreases |s.layers| - k
  {
    hide Lawful, TailPlaced;
    if k < |s.layers| {
      InRangeOf(c, inOrder, s, k);
      var x := s.layers[k];
      var t := Protected(c.info, s, k, z).0;
      if c.info[x].isProtected {
        DedicateLawful(c, inOrder, s, k);
        WithoutMember(c, inOrder, s, k);
        ProtectedPlaces(c, inOrder, Dedicate(s, k), k, x);
        DedicatedTail(c.info, s, k, t);
      } else {
        ProtectedPlaces(c, inOrder, s, k + 1, z);
        SkippedTail(c.info, s, k, t);
      }
    } else {
      NonePlaced(c.info, s);
    }
  }

  lemma {:induction false} DedicatedTail(info: seq<Layer>, s: State, k: nat, t: State)
    requires InRange(info, s.layers) && k < |s.layers| && s.layers[k] < |info| && info[s.layers[k]].isProtected
    requires k <= |Dedicate(s, k).layers| && Dedicate(s, k).layers[k..] == s.layers[k + 1..]
    requires TailPlaced(info, Dedicate(s, k), k, t)
    ensures TailPlaced(info, s, k, t)
  {
    NextProtected(info, s.layers, k);
    hide PlacedInTurn, ProtectedOnes, InRange, Dedicate;
    DedicatePlaces(s.layers[k], ProtectedOnes(info, s.layers[k + 1..]), s, k, t);
  }

  lemma {:induction false} SkippedTail(info: seq<Layer>, s: State, k: nat, t: State)
    requires InRange(info, s.layers) && k < |s.layers| && s.layers[k] < |info| && !info[s.layers[k]].isProtected
    requires TailPlaced(info, s, k + 1, t)
    ensures TailPlaced(info, s, k, t)
  {
    NextProtected(info, s.layers, k);
    hide PlacedInTurn, ProtectedOnes, InRange;
    assert [] + ProtectedOnes(info, s.layers[k + 1..]) == ProtectedOnes(info, s.layers[k + 1..]);
  }

  lemma {:induction false} NonePlaced(info: seq<Layer>, s: State)
    ensures TailPlaced(info, s, |s.layers|, s)
  {
    assert s.layers[|s.layers|..] == [];
    hide SourceOf;
    assert SourceOf(s.ded) + [] == SourceOf(s.ded);
  }

  /** The z-order the stage reports is that of a protected layer, or the one it started with. */
  lemma {:induction false} ProtectedMark(c: PlanInput, inOrder: bool, s: State, k: nat, z: int)
    requires Lawful(c, inOrder, s) && k <= |s.layers|
    ensures var z' := Protected(c.info, s, k, z).1;
            z' == z || (0 <= z' < |c.info| && z' in s.layers && c.info[z'].isProtected)
    decreases |s.layers| - k
  {
    hide Lawful;
    if k < |s.layers| {
      InRangeOf(c, inOrder, s, k);
      var x := s.layers[k];
      if c.info[x].isProtected {
        DedicateLawful(c, inOrder, s, k);
        WithoutMember(c, inOrder, s, k);
        ProtectedMark(c, inOrder, Dedicate(s, k), k, x);
      } else {
        ProtectedMark(c, inOrder, s, k + 1, z);
      }
    }
  }

  /** What the stage reports is below a layer exactly when all upright protected layers are. */
  lemma {:induction false} OverAllUpright(c: PlanInput, i: nat)
    requires Given(c) && c.usable != []
    ensures Protected(c.info, AfterRotated(c), 0, -1).1 < i <==> forall u: nat :: IsUpright(c, u) ==> u < i
    ensures Protected(c.info, AfterRotated(c), 0, -1).1 >= -1
  {
    hide Lawful, SourceOf, CheckLayer;
    var s, inOrder := AfterRotated(c), NoneRotated(c.info, c.all);
    AfterRotatedLaw(c);
    WholeTail(c, inOrder, s);
    ProtectedMark(c, inOrder, s, 0, -1);
    var z := Protected(c.info, s, 0, -1).1;
    if z >= 0 {
      RotatedStage(c, z);
    }
    forall u: nat | IsUpright(c, u)
      ensures u <= z
    {
      RotatedStage(c, u);
      ProtectedMembers(c, inOrder, s, 0, -1, u);
    }
    assert z >= 0 ==> IsUpright(c, z);
  }

  lemma {:induction false} ProtectedStage(c: PlanInput, i: nat)
    requires Given(c) && c.usable != [] && i < |c.info|
    ensures var s := AfterProtected(c.info, c.all, c.usable);
            && (i in s.layers <==>
                  IsSupported(c, i) && !c.info[i].isProtected && i > Top(c)
                    && forall u: nat :: IsUpright(c, u) ==> u < i)
            && (i in PreSources(s) <==> Joins(c, i))
  {
    hide Lawful, SourceOf, CheckLayer;
    var s, inOrder := AfterRotated(c), NoneRotated(c.info, c.all);
    AfterRotatedLaw(c);
    RotatedStage(c, i);
    WholeTail(c, inOrder, s);
    ProtectedLawful(c, inOrder, s, 0, -1);
    ProtectedMembers(c, inOrder, s, 0, -1, i);
    OverAllUpright(c, i);
    var (t, z) := Protected(c.info, s, 0, -1);
    if z != -1 {
      BelowLawful(c, inOrder, t, 0, z);
      BelowMembers(c, inOrder, t, 0, z, i);
    }
    if !c.info[i].isProtected {
      NotTop(c, i);
      NotUpright(c, i);
    }
  }

  lemma {:induction false} NotUpright(c: PlanInput, i: nat)
    requires Given(c) && i < |c.info| && !c.info[i].isProtected
    ensures (exists u: nat :: IsUpright(c, u) && i < u) <==> !(forall u: nat :: IsUpright(c, u) ==> u < i)
  {
    assert !IsUpright(c, i);
  }

  lemma {:induction false} PrecompStage(c: PlanInput, i: nat)
    requires Given(c) && c.usable != [] && i < |c.info|
    ensures var s := AfterPrecomp(c);
            && (i in s.layers <==> IsRest(c, i))
            && (i in PreSources(s) && c.info[i].isProtected <==> c.info[i].isProtected && JoinsBelowTop(c, i))
  {
    hide Lawful, SourceOf, CheckLayer, Joins, IsUpright, JoinsBelowTop;
    var s, inOrder := AfterProtected(c.info, c.all, c.usable), NoneRotated(c.info, c.all);
    AfterProtectedLaw(c);
    ProtectedStage(c, i);
    JoinsSay(c, i);
    if s.pre != [] && s.pre[0].sources != [] {
      var z := Lowest(s.pre[0].sources);
      AboveMembers(c, inOrder, s, 0, z, i);
      LowestJoins(c, s, z, i);
    } else {
      NobodyJoins(c, s);
    }
  }

  lemma {:induction false} LowestJoins(c: PlanInput, s: State, z: nat, i: nat)
    requires Given(c) && c.usable != [] && s == AfterProtected(c.info, c.all, c.usable)
    requires PreSources(s) != [] && z == Lowest(PreSources(s))
    ensures i < z <==> forall j: nat :: Joins(c, j) ==> i < j
  {
    hide AfterProtected;
    AfterProtectedLaw(c);
    SourcesInRange(c, NoneRotated(c.info, c.all), s, z);
    ProtectedStage(c, z);
    forall j: nat | Joins(c, j)
      ensures z <= j
    {
      ProtectedStage(c, j);
    }
  }

  lemma {:induction false} NobodyJoins(c: PlanInput, s: State)
    requires Given(c) && c.usable != [] && s == AfterProtected(c.info, c.all, c.usable) && PreSources(s) == []
    ensures forall j: nat :: !Joins(c, j)
  {
    forall j: nat | Joins(c, j)
      ensures false
    {
      ProtectedStage(c, j);
    }
  }

  /** An unprotected supported layer that does not join is above all that would make it join. */
  lemma {:induction false} JoinsSay(c: PlanInput, i: nat)
    requires Given(c) && i < |c.info|
    ensures IsSupported(c, i) && !c.info[i].isProtected && !Joins(c, i) ==>
              i > Top(c) && forall u: nat :: IsUpright(c, u) ==> u < i
    ensures c.info[i].isProtected ==> (Joins(c, i) <==> JoinsBelowTop(c, i))
  {
    if !c.info[i].isProtected {
      NotTop(c, i);
      NotUpright(c, i);
    }
  }

  // ----- the whole plan -----

  /**
   * The dedicated layers are the rotated part, then the lowest upright protected ones, then the lowest of the rest; the
   * next one of a list is left out only when no plane is left.
   */
  ghost predicate InPlaces(c: PlanInput, t: State, upright: seq<nat>, m: nat, rest: seq<nat>, n: nat)
    requires Given(c)
  {
    && m <= |upright| && n <= |rest| && SourceOf(t.ded) == RotatedPart(c) + upright[..m] + rest[..n]
    && (m < |upright| ==> n == 0 && t.planes == [])
    && (n < |rest| ==> t.planes == [])
  }

  /** The upright protected layers as the stage finds them, and how many get a plane. */
  lemma {:induction false} UprightPlaced(c: PlanInput) returns (upright: seq<nat>, m: nat)
    requires Given(c) && c.usable != []
    ensures Ascending(upright) && forall i: nat :: i in upright <==> IsUpright(c, i)
    ensures m <= |upright| && SourceOf(AfterProtected(c.info, c.all, c.usable).ded) == RotatedPart(c) + upright[..m]
    ensures m < |upright| ==> AfterProtected(c.info, c.all, c.usable).planes == []
  {
    hide Lawful, SourceOf, CheckLayer, Ascending;
    var s, inOrder := AfterRotated(c), NoneRotated(c.info, c.all);
    AfterRotatedLaw(c);
    LayersAscending(c, s);
    upright := ProtectedOnes(c.info, s.layers);
    ProtectedOnesAscend(c.info, s.layers);
    forall i: nat
      ensures i in upright <==> IsUpright(c, i)
    {
      if i < |c.info| {
        RotatedStage(c, i);
      }
    }
    assert s.layers[0..] == s.layers;
    ProtectedPlaces(c, inOrder, s, 0, -1);
    ProtectedLawful(c, inOrder, s, 0, -1);
    m := Min(|upright|, |s.planes|);
    var (t, z) := Protected(c.info, s, 0, -1);
    if z != -1 {
      BelowLawful(c, inOrder, t, 0, z);
      if t.planes == [] {
        NoNewPlanes(t, 0, z);
      }
    }
  }

  lemma {:induction false} NoNewPlanes(s: State, k: nat, z: int)
    requires k <= |s.layers| && s.planes == []
    ensures BelowToPrecomp(s, k, z).planes == []
    decreases |s.layers| - k
  {
    if k < |s.layers| {
      if s.layers[k] > z {
        NoNewPlanes(s, k + 1, z);
      } else {
        NoNewPlanes(ToPrecomp(s, k), k, z);
      }
    }
  }

  lemma {:induction false} RestLeft(c: PlanInput) returns (rest: seq<nat>)
    requires Given(c) && c.usable != []
    ensures rest == AfterPrecomp(c).layers && Ascending(rest) && forall i: nat :: i in rest <==> IsRest(c, i)
    ensures AfterPrecomp(c).planes == AfterProtected(c.info, c.all, c.usable).planes
  {
    hide Lawful, SourceOf, CheckLayer, Ascending, Joins;
    var s, inOrder := AfterProtected(c.info, c.all, c.usable), NoneRotated(c.info, c.all);
    AfterProtectedLaw(c);
    AfterPrecompLaw(c);
    rest := AfterPrecomp(c).layers;
    LayersAscending(c, AfterPrecomp(c));
    forall i: nat
      ensures i in rest <==> IsRest(c, i)
    {
      if i < |c.info| {
        PrecompStage(c, i);
      } else if i in rest {
        LayersInRange(c, AfterPrecomp(c), i);
      }
    }
    if s.pre != [] && s.pre[0].sources != [] {
      AboveLawful(c, inOrder, s, 0, Lowest(s.pre[0].sources));
    }
  }

  /** Everything the plan dedicates, in its order. */
  lemma {:induction false} PlanIsGiven(c: PlanInput)
    returns (upright: seq<nat>, m: nat, rest: seq<nat>, n: nat)
    requires Given(c) && c.usable != []
    ensures Ascending(upright) && forall i: nat :: i in upright <==> IsUpright(c, i)
    ensures Ascending(rest) && forall i: nat :: i in rest <==> IsRest(c, i)
    ensures InPlaces(c, Provision(c.info, c.all, c.usable), upright, m, rest, n)
  {
    upright, m := UprightPlaced(c);
    rest := RestLeft(c);
    hide Lawful, SourceOf, Ascending, IsUpright, IsRest, RotatedPart;
    AfterPrecompLaw(c);
    LastStage(c);
    n := Min(|rest|, |AfterPrecomp(c).planes|);
  }

  /**
   * Everything the plan precomposes: the unprotected layers that are not dedicated, and protected ones below the top.
   */
  lemma {:induction false} PrecomposedIsGiven(c: PlanInput, i: nat)
    requires Given(c) && c.usable != [] && i in c.all
    ensures var t := Provision(c.info, c.all, c.usable);
            i in PreSources(t) <==> if c.info[i].isProtected then JoinsBelowTop(c, i) else i !in SourceOf(t.ded)
  {
    var s, t := AfterPrecomp(c), Provision(c.info, c.all, c.usable);
    EveryLayerPlacedOnce(c, i);
    hide Lawful, SourceOf, CheckLayer, JoinsBelowTop, Given;
    if c.info[i].isProtected {
      PrecompStage(c, i);
      LastStage(c);
    } else {
      assert multiset(SourceOf(t.ded) + PreSources(t))[i] == multiset(SourceOf(t.ded))[i] + multiset(PreSources(t))[i];
    }
  }

  // ----- the order of the planes -----

  /** `at` are the places of the planes `used` in a pool, one behind the other. */
  ghost predicate AtPlaces(pool: seq<HwPlane>, used: seq<HwPlane>, at: seq<nat>) {
    && |at| == |used| && Ascending(at)
    && forall k :: 0 <= k < |at| ==> at[k] < |pool| && pool[at[k]] == used[k]
  }

  ghost predicate InPoolOrder(pool: seq<HwPlane>, used: seq<HwPlane>) {
    exists at :: AtPlaces(pool, used, at)
  }

  lemma {:induction false} WithinPool(pool: seq<HwPlane>, usable: seq<HwPlane>, used: seq<HwPlane>)
    requires InPoolOrder(pool, usable) && InPoolOrder(usable, used)
    ensures InPoolOrder(pool, used)
  {
    var at :| AtPlaces(pool, usable, at);
    var idx :| AtPlaces(usable, used, idx);
    assert AtPlaces(pool, used, seq(|idx|, k requires 0 <= k < |idx| => at[idx[k]]));
  }

  lemma {:induction false} MiddleLeftOut(low: seq<HwPlane>, middle: seq<HwPlane>, high: seq<HwPlane>)
    ensures InPoolOrder(low + middle + high, low + high)
  {
    var idx := seq(|low| + |high|, k requires 0 <= k < |low| + |high| => if k < |low| then k else k + |middle|);
    assert AtPlaces(low + middle + high, low + high, idx);
  }

  function Primaries(planes: seq<HwPlane>): (r: seq<HwPlane>)
    ensures |r| == PrimaryCount(planes)
  {
    if planes == [] then [] else (if planes[0].isPrimary then [planes[0]] else []) + Primaries(planes[1..])
  }

  /** The planes without the first `m` primary ones. */
  function AfterPrimaries(planes: seq<HwPlane>, m: nat): seq<HwPlane> {
    if planes == [] || m == 0 then planes
    else if planes[0].isPrimary then AfterPrimaries(planes[1..], m - 1)
    else [planes[0]] + AfterPrimaries(planes[1..], m)
  }

  lemma {:induction false} AfterPrimariesOrder(planes: seq<HwPlane>, m: nat)
    ensures InPoolOrder(planes, AfterPrimaries(planes, m))
  {
    if planes == [] || m == 0 {
      AllPlaces(planes);
    } else {
      var rest := planes[1..];
      assert [planes[0]] + rest == planes;
      if planes[0].isPrimary {
        AfterPrimariesOrder(rest, m - 1);
        OneMoreBelow(planes[0], rest, AfterPrimaries(rest, m - 1));
      } else {
        AfterPrimariesOrder(rest, m);
        OneMoreBelow(planes[0], rest, AfterPrimaries(rest, m));
      }
    }
  }

  lemma {:induction false} AllPlaces(planes: seq<HwPlane>)
    ensures InPoolOrder(planes, planes)
  {
    assert AtPlaces(planes, planes, seq(|planes|, k requires 0 <= k < |planes| => k));
  }

  lemma {:induction false} OneMoreBelow(plane: HwPlane, pool: seq<HwPlane>, used: seq<HwPlane>)
    requires InPoolOrder(pool, used)
    ensures InPoolOrder([plane] + pool, used) && InPoolOrder([plane] + pool, [plane] + used)
  {
    var at :| AtPlaces(pool, used, at);
    var later := seq(|at|, k requires 0 <= k < |at| => at[k] + 1);
    assert AtPlaces([plane] + pool, used, later);
    assert AtPlaces([plane] + pool, [plane] + used, [0] + later);
  }

  lemma {:induction false} Cons(plane: HwPlane, rest: seq<HwPlane>, m: nat)
    ensures Primaries([plane] + rest) == (if plane.isPrimary then [plane] else []) + Primaries(rest)
    ensures AfterPrimaries([plane] + rest, m) ==
              if m == 0 then [plane] + rest
              else if plane.isPrimary then AfterPrimaries(rest, m - 1) else [plane] + AfterPrimaries(rest, m)
    ensures FirstPrimary([plane] + rest) == if plane.isPrimary then 0 else 1 + FirstPrimary(rest)
  {
    assert ([plane] + rest)[1..] == rest;
  }

  lemma {:induction false} WithoutCons(plane: HwPlane, rest: seq<HwPlane>, k: nat)
    requires k < |rest|
    ensures Without([plane] + rest, k + 1) == [plane] + Without(rest, k)
    ensures ([plane] + rest)[k + 1] == rest[k]
  {
    var all := [plane] + rest;
    assert all[..k + 1] == [plane] + rest[..k] && all[k + 2..] == rest[k + 1..];
    assert Without(all, k + 1) == all[..k + 1] + all[k + 2..] && Without(rest, k) == rest[..k] + rest[k + 1..];
    hide Without;
    assert [plane] + rest[..k] + rest[k + 1..] == [plane] + (rest[..k] + rest[k + 1..]);
  }

  lemma {:induction false} WithoutFirst(plane: HwPlane, rest: seq<HwPlane>)
    ensures Without([plane] + rest, 0) == rest
  {
  }

  lemma {:induction false} FirstOfPrimaries(planes: seq<HwPlane>)
    requires FirstPrimary(planes) < |planes|
    ensures var j := FirstPrimary(planes);
            Primaries(planes) == [planes[j]] + Primaries(Without(planes, j))
  {
    var j, plane, rest := FirstPrimary(planes), planes[0], planes[1..];
    assert planes == [plane] + rest;
    Cons(plane, rest, 0);
    hide FirstPrimary, Primaries, Without, AfterPrimaries;
    if plane.isPrimary {
      WithoutFirst(plane, rest);
    } else {
      FirstOfPrimaries(rest);
      WithoutCons(plane, rest, j - 1);
      Cons(plane, Without(rest, j - 1), 0);
      NothingInFront(Primaries(rest));
      NothingInFront(Primaries(Without(rest, j - 1)));
    }
  }

  lemma {:induction false} NothingInFront(s: seq<HwPlane>)
    ensures [] + s == s
  {
  }

  /** Without the first primary plane and `m` more there are as many left as without the first `m + 1`. */
  lemma {:induction false} OneMorePrimary(planes: seq<HwPlane>, m: nat)
    requires FirstPrimary(planes) < |planes|
    ensures AfterPrimaries(Without(planes, FirstPrimary(planes)), m) == AfterPrimaries(planes, m + 1)
  {
    var j, plane, rest := FirstPrimary(planes), planes[0], planes[1..];
    assert planes == [plane] + rest;
    Cons(plane, rest, m + 1);
    hide FirstPrimary, Primaries, Without, AfterPrimaries;
    if plane.isPrimary {
      WithoutFirst(plane, rest);
    } else {
      OneMorePrimary(rest, m);
      WithoutCons(plane, rest, j - 1);
      NoneTaken(Without(rest, j - 1));
      Cons(plane, Without(rest, j - 1), m);
    }
  }

  lemma {:induction false} NoneTaken(planes: seq<HwPlane>)
    ensures AfterPrimaries(planes, 0) == planes
  {
  }

  /** The layers placed in between have the first primary planes, the last of them at the bottom. */
  ghost predicate PrimariesTaken(s: State, t: State) {
    && |s.ded| <= |t.ded|
    && var m := |t.ded| - |s.ded|;
       && m <= PrimaryCount(s.planes) && t.pre == s.pre && t.planes == AfterPrimaries(s.planes, m)
       && HardwareOf(t.ded) == Backwards(Primaries(s.planes)[..m]) + HardwareOf(s.ded)
  }

  lemma {:induction false} NoPrimaryTaken(s: State)
    ensures PrimariesTaken(s, s)
  {
    NoneTaken(s.planes);
    hide HardwareOf;
    assert Primaries(s.planes)[..0] == [];
    assert [] + HardwareOf(s.ded) == HardwareOf(s.ded);
  }

  lemma {:induction false} PrimaryTaken(s: State, k: nat, t: State)
    requires k < |s.layers| && PrimariesTaken(PlaceRotated(s, k), t)
    ensures PrimariesTaken(s, t)
  {
    var j := FirstPrimary(s.planes);
    if j < |s.planes| {
      var u, plane := PlaceRotated(s, k), s.planes[j];
      var m := |t.ded| - |u.ded|;
      FirstOfPrimaries(s.planes);
      OneMorePrimary(s.planes, m);
      assert HardwareOf(u.ded) == [plane] + HardwareOf(s.ded);
      hide HardwareOf, Primaries, AfterPrimaries, FirstPrimary, Without;
      OneMoreInFront(plane, Primaries(u.planes), m, HardwareOf(s.ded));
    }
  }

  lemma {:induction false} OneMoreInFront(plane: HwPlane, rest: seq<HwPlane>, m: nat, before: seq<HwPlane>)
    requires m <= |rest|
    ensures Backwards(([plane] + rest)[..m + 1]) + before == Backwards(rest[..m]) + ([plane] + before)
  {
    var first := rest[..m];
    assert ([plane] + rest)[..m + 1] == [plane] + first && ([plane] + first)[1..] == first;
    assert Backwards([plane] + first) == Backwards(first) + [plane];
    hide Backwards;
    assert Backwards(first) + [plane] + before == Backwards(first) + ([plane] + before);
  }

  lemma {:induction false} RotatedTakeFirst(info: seq<Layer>, s: State, k: nat, z: int)
    requires k <= |s.layers| && InRange(info, s.layers)
    ensures PrimariesTaken(s, Rotated(info, s, k, z).0)
    decreases |s.layers| - k
  {
    hide PrimariesTaken;
    if k == |s.layers| {
      NoPrimaryTaken(s);
    } else {
      assert s.layers[k] in s.layers;
      if IsRotatedProtected(info[s.layers[k]]) {
        InRangeWithout(info, s.layers, k);
        RotatedTakeFirst(info, PlaceRotated(s, k), k, if FirstPrimary(s.planes) < |s.planes| then s.layers[k] else z);
        PrimaryTaken(s, k, Rotated(info, s, k, z).0);
      } else {
        RotatedTakeFirst(info, s, k + 1, z);
      }
    }
  }

  /** All planes of a state in the order of the composition. */
  ghost function PlanesOf(s: State): seq<HwPlane> {
    HardwareOf(s.ded) + s.planes + HardwareOf(s.pre)
  }

  /** From any state on, the stages take planes in the order in which they are. */
  lemma {:induction false} LawfulInOrder(c: PlanInput, s: State)
    requires Lawful(c, false, s)
    ensures Lawful(PlanInput(c.info, c.all, PlanesOf(s)), true, s)
  {
    hide HardwareOf, SourceOf, Ascending, Conserved;
    assert multiset(PlanesOf(s)) == multiset(c.usable);
    assert |multiset(PlanesOf(s))| == |multiset(c.usable)|;
  }

  lemma {:induction false} StagesInOrder(c: PlanInput, r: State, z: int)
    requires Lawful(c, true, r)
    ensures var s := if z == -1 then r else BelowToPrecomp(r, 0, z);
            InRange(c.info, s.layers) && PlanesOf(StageGreedy(StagePrecomp(StageProtected(c.info, s)))) == c.usable
  {
    hide Lawful, PlanesOf;
    if z != -1 {
      BelowLawful(c, true, r, 0, z);
    }
    var s := if z == -1 then r else BelowToPrecomp(r, 0, z);
    InOrderMeans(c, s);
    ProtectedLawful(c, true, s, 0, -1);
    var (t, y) := Protected(c.info, s, 0, -1);
    if y != -1 {
      BelowLawful(c, true, t, 0, y);
    }
    var u := StageProtected(c.info, s);
    if u.pre != [] && u.pre[0].sources != [] {
      AboveLawful(c, true, u, 0, Lowest(u.pre[0].sources));
    }
    var v := StagePrecomp(u);
    GreedyFillLawful(c, true, v);
    if GreedyFill(v).pre != [] {
      RestLaw(c, true, GreedyFill(v));
    }
    InOrderMeans(c, StageGreedy(v));
  }

  lemma {:induction false} InOrderMeans(c: PlanInput, s: State)
    requires Lawful(c, true, s)
    ensures PlanesOf(s) == c.usable && InRange(c.info, s.layers)
  {
  }

  /** The planes a plan uses for rotated layers are the first primary ones in turn; all others keep their order. */
  lemma {:induction false} PlanesAreGiven(c: PlanInput)
    requires Given(c)
    ensures var t, m, left := Provision(c.info, c.all, c.usable), |RotatedPart(c)|, PlanesLeft(c);
            && m <= PrimaryCount(left) && left <= c.usable
            && PlanesOf(t) == Backwards(Primaries(left)[..m]) + AfterPrimaries(left, m) + c.usable[|left|..]
            && InPoolOrder(left, AfterPrimaries(left, m))
  {
    AfterPrimariesOrder(PlanesLeft(c), |RotatedPart(c)|);
    hide Lawful, PlanesOf, PlanesLeft, SourceOf, InPoolOrder;
    var s := AfterLimits(c.info, c.all, c.usable);
    AfterLimitsLaw(c, 0);
    LimitsLeave(c.info, InitialState(c.all, c.usable), 0);
    LimitsLeftGiven(c, s);
    OrderOnlyWeakens(c, s, true);
    RotatedLawful(c, s, 0, -1);
    RotatedTakeFirst(c.info, s, 0, -1);
    var (r, z) := Rotated(c.info, s, 0, -1);
    LawfulInOrder(c, r);
    StagesInOrder(PlanInput(c.info, c.all, PlanesOf(r)), r, z);
    if z != -1 {
      BelowLawful(c, false, r, 0, z);
    }
    TakenFromLimits(c, s, r);
  }

  lemma {:induction false} TakenFromLimits(c: PlanInput, s: State, r: State)
    requires Given(c) && Lawful(c, true, s) && s.ded == [] && s.planes == PlanesLeft(c) && PrimariesTaken(s, r)
    ensures var m, left := |r.ded|, PlanesLeft(c);
            && m <= PrimaryCount(left) && left <= c.usable
            && PlanesOf(r) == Backwards(Primaries(left)[..m]) + AfterPrimaries(left, m) + c.usable[|left|..]
  {
    assert HardwareOf(s.ded) == [];
    InOrderMeans(c, s);
    hide Lawful, PlanesLeft, Primaries, AfterPrimaries, Backwards, Given, HardwareOf, PrimaryCount;
    var left, pre := s.planes, HardwareOf(s.pre);
    assert c.usable == [] + left + pre;
    assert c.usable[|left|..] == pre;
  }
}
