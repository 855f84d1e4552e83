/** What a finished plan promises: where every layer and every plane went, and in which order. */
module PlanTheorems {
  import opened Geometry
  import opened Layers
  import opened CompositionTypes
  import opened PlanStages
  import opened PlanLaws

  ghost predicate Given(c: PlanInput) {
    Ascending(c.all) && InRange(c.info, c.all)
  }

  lemma {:induction false} AfterLimitsLaw(c: PlanInput, i: nat)
    requires Given(c)
    ensures var s := AfterLimits(c.info, c.all, c.usable);
            && Lawful(c, true, s) && s.ded == []
            && (i in s.layers ==> i in c.all && i < |c.info| && CheckLayer(i, c.info[i]))
            && (i < |c.info| && i in PreSources(s) ==> !c.info[i].isProtected)
  {
    InitialLawful(c);
    var s := InitialState(c.all, c.usable);
    NvLimitsLawful(c, true, s, 0);
    if i < |c.info| {
      NvLimitsMembers(c, true, s, 0, i);
    } else {
      assert InRange(c.info, AfterLimits(c.info, c.all, c.usable).layers);
    }
  }

  ghost function AfterRotated(c: PlanInput): State
    requires Given(c)
  {
    StageProtectedRotated(c.info, AfterLimits(c.info, c.all, c.usable))
  }

  /** The protected layers placed for their rotation, which come first in the composition. */
  ghost function RotatedPart(c: PlanInput): seq<nat>
    requires Given(c)
  {
    SourceOf(AfterRotated(c).ded)
  }

  /** After the stage for rotated layers, what is left is above all of them, and no layer left is one. */
  lemma {:induction false} AfterRotatedMembers(c: PlanInput, i: nat)
    requires Given(c) && i < |c.info|
    ensures var s := AfterRotated(c);
            && (i in s.layers ==>
                  i in c.all && CheckLayer(i, c.info[i]) && !IsRotatedProtected(c.info[i]) && i > Mark(RotatedPart(c)))
            && (i in RotatedPart(c) ==> IsRotatedProtected(c.info[i]) && CheckLayer(i, c.info[i]))
            && (i in PreSources(s) && c.info[i].isProtected ==> i <= Mark(RotatedPart(c)))
    ensures Descending(RotatedPart(c))
  {
    hide Lawful, SourceOf, Descending;
    var s := AfterLimits(c.info, c.all, c.usable);
    AfterLimitsLaw(c, i);
    OrderOnlyWeakens(c, s, true);
    NothingDedicated(s.ded);
    EmptyAscends();
    RotatedDescends(c, s, 0, -1);
    RotatedLawful(c, s, 0, -1);
    RotatedMembers(c, s, 0, -1, i);
    var (t, z) := Rotated(c.info, s, 0, -1);
    if z != -1 {
      BelowLawful(c, false, t, 0, z);
      BelowMembers(c, false, t, 0, z, i);
    }
  }

  lemma {:induction false} AfterRotatedLaw(c: PlanInput)
    requires Given(c)
    ensures Lawful(c, NoneRotated(c.info, c.all), AfterRotated(c))
    ensures NoneRotated(c.info, c.all) ==> RotatedPart(c) == []
  {
    hide Lawful;
    var s := AfterLimits(c.info, c.all, c.usable);
    AfterLimitsLaw(c, 0);
    if NoneRotated(c.info, c.all) {
      forall j | j in s.layers
        ensures j in c.all
      {
        AfterLimitsLaw(c, j);
      }
      RotatedIdle(c.info, s, 0, -1);
      NothingDedicated(s.ded);
    } else {
      OrderOnlyWeakens(c, s, true);
      RotatedLawful(c, s, 0, -1);
      var (t, z) := Rotated(c.info, s, 0, -1);
      if z != -1 {
        BelowLawful(c, false, t, 0, z);
      }
    }
  }

  /** Once protected layers are placed, what is left is unprotected. */
  lemma {:induction false} AfterProtectedMembers(c: PlanInput, i: nat)
    requires Given(c) && i < |c.info|
    ensures var s := AfterProtected(c.info, c.all, c.usable);
            && (i in s.layers ==> i in AfterRotated(c).layers && !c.info[i].isProtected)
            && (i in SourceOf(s.ded) ==> i in RotatedPart(c) || (i in AfterRotated(c).layers && c.info[i].isProtected))
            && (i in PreSources(s) && c.info[i].isProtected ==> i <= Mark(RotatedPart(c)))
  {
    hide Lawful, SourceOf;
    var inOrder := NoneRotated(c.info, c.all);
    var s := AfterRotated(c);
    AfterRotatedLaw(c);
    AfterRotatedMembers(c, i);
    WholeTail(c, inOrder, s);
    ProtectedLawful(c, inOrder, s, 0, -1);
    ProtectedMembers(c, inOrder, s, 0, -1, i);
    var (t, z) := Protected(c.info, s, 0, -1);
    if z != -1 {
      BelowLawful(c, inOrder, t, 0, z);
      BelowMembers(c, inOrder, t, 0, z, i);
    }
  }

  lemma {:induction false} AfterProtectedLaw(c: PlanInput)
    requires Given(c)
    ensures Lawful(c, NoneRotated(c.info, c.all), AfterProtected(c.info, c.all, c.usable))
  {
    hide Lawful;
    var inOrder := NoneRotated(c.info, c.all);
    var s := AfterRotated(c);
    AfterRotatedLaw(c);
    ProtectedLawful(c, inOrder, s, 0, -1);
    var (t, z) := Protected(c.info, s, 0, -1);
    if z != -1 {
      BelowLawful(c, inOrder, t, 0, z);
    }
  }

  lemma {:induction false} WholeTail(c: PlanInput, inOrder: bool, s: State)
    requires Lawful(c, inOrder, s)
    ensures AllOver(s.layers[0..], -1)
  {
  }

  /** Protected layers that need no rotation are placed from the bottom up, below everything left. */
  lemma {:induction false} AfterProtectedOrder(c: PlanInput) returns (up: seq<nat>)
    requires Given(c)
    ensures var s := AfterProtected(c.info, c.all, c.usable);
            SourceOf(s.ded) == RotatedPart(c) + up && Ascending(up) && AllBelow(up, s.layers)
    ensures forall d :: d in up ==> d in AfterRotated(c).layers
  {
    hide Lawful, SourceOf, Ascending;
    var inOrder := NoneRotated(c.info, c.all);
    var s, r := AfterRotated(c), AfterProtected(c.info, c.all, c.usable);
    AfterRotatedLaw(c);
    ProtectedLawful(c, inOrder, s, 0, -1);
    var (t, z) := Protected(c.info, s, 0, -1);
    EmptyAscends();
    assert SourceOf(s.ded) == RotatedPart(c) + [];
    up := ProtectedAscends(c, inOrder, s, 0, -1, RotatedPart(c), []);
    if z != -1 {
      BelowLawful(c, inOrder, t, 0, z);
    }
    forall d | d in up
      ensures d in s.layers && forall i :: i in r.layers ==> d < i
    {
      UprightIsNew(c, t, up, d);
      WholeTail(c, inOrder, s);
      ProtectedMembers(c, inOrder, s, 0, -1, d);
      forall i | i in r.layers
        ensures d < i
      {
        BelowMembers(c, inOrder, t, 0, z, i);
      }
    }
  }

  lemma {:induction false} EmptyAscends()
    ensures Ascending([]) && Descending([])
  {
  }

  /** A layer is dedicated once, so not both for its rotation and later. */
  lemma {:induction false} UprightIsNew(c: PlanInput, t: State, up: seq<nat>, d: nat)
    requires Given(c) && Lawful(c, NoneRotated(c.info, c.all), t) && SourceOf(t.ded) == RotatedPart(c) + up && d in up
    ensures d < |c.info| && d !in RotatedPart(c)
  {
    hide SourceOf, Shape, PlanesConserved, Capacity, AfterRotated;
    SourcesInRange(c, NoneRotated(c.info, c.all), t, d);
    AtMostOnce(c.all, d);
    assert multiset(RotatedPart(c) + up)[d] == multiset(RotatedPart(c))[d] + multiset(up)[d];
  }

  lemma {:induction false} NothingDedicated(ded: seq<CompositionPlane>)
    requires ded == []
    ensures SourceOf(ded) == []
  {
  }

  lemma {:induction false} SourcesInRange(c: PlanInput, inOrder: bool, s: State, d: nat)
    requires Lawful(c, inOrder, s) && InRange(c.info, c.all)
    ensures d in SourceOf(s.ded) || d in PreSources(s) || d in s.layers || d in s.gone ==> d in c.all && d < |c.info|
    ensures d in c.all ==> d in SourceOf(s.ded) || d in PreSources(s) || d in s.layers || d in s.gone
  {
    assert d in multiset(c.all) <==>
             d in multiset(s.layers) + multiset(SourceOf(s.ded)) + multiset(PreSources(s)) + multiset(s.gone);
  }

  ghost function AfterPrecomp(c: PlanInput): State
    requires Given(c)
  {
    StagePrecomp(AfterProtected(c.info, c.all, c.usable))
  }

  lemma {:induction false} AfterPrecompLaw(c: PlanInput)
    requires Given(c)
    ensures Lawful(c, NoneRotated(c.info, c.all), AfterPrecomp(c))
    ensures AfterPrecomp(c).ded == AfterProtected(c.info, c.all, c.usable).ded
  {
    hide Lawful;
    var s := AfterProtected(c.info, c.all, c.usable);
    AfterProtectedLaw(c);
    if s.pre != [] && s.pre[0].sources != [] {
      AboveLawful(c, NoneRotated(c.info, c.all), s, 0, Lowest(s.pre[0].sources));
    }
  }

  lemma {:induction false} AfterPrecompMembers(c: PlanInput, i: nat)
    requires Given(c) && i < |c.info|
    ensures var s := AfterPrecomp(c);
            && (i in s.layers ==>
                  i in AfterProtected(c.info, c.all, c.usable).layers && i in AfterRotated(c).layers
                    && !c.info[i].isProtected)
            && (i in PreSources(s) && c.info[i].isProtected ==> i <= Mark(RotatedPart(c)))
  {
    hide Lawful, SourceOf;
    var s := AfterProtected(c.info, c.all, c.usable);
    AfterProtectedLaw(c);
    AfterProtectedMembers(c, i);
    if s.pre != [] && s.pre[0].sources != [] {
      AboveMembers(c, NoneRotated(c.info, c.all), s, 0, Lowest(s.pre[0].sources), i);
    }
  }

  /** From here on, the layers left are below every layer of the precomposition. */
  lemma {:induction false} AfterPrecompOrder(c: PlanInput, i: nat, p: nat)
    requires Given(c) && i in AfterPrecomp(c).layers && p in PreSources(AfterPrecomp(c))
    ensures i < p
  {
    hide Lawful;
    var inOrder := NoneRotated(c.info, c.all);
    var s := AfterProtected(c.info, c.all, c.usable);
    AfterProtectedLaw(c);
    if s.pre != [] && s.pre[0].sources != [] {
      var z := Lowest(s.pre[0].sources);
      AboveMembers(c, inOrder, s, 0, z, i);
      AboveMembers(c, inOrder, s, 0, z, p);
    }
  }

  /** How the last stage divides what is left: the lowest layers get the planes left, the others are precomposed. */
  lemma {:induction false} LastStage(c: PlanInput)
    requires Given(c)
    ensures var s, t := AfterPrecomp(c), Provision(c.info, c.all, c.usable);
            var m := Min(|s.layers|, |s.planes|);
            && Lawful(c, NoneRotated(c.info, c.all), t)
            && SourceOf(t.ded) == SourceOf(s.ded) + s.layers[..m]
            && PreSources(t) == (if s.pre == [] then [] else PreSources(s) + s.layers[m..])
            && (c.usable != [] ==> t.layers == [])
            && t.planes == s.planes[m..]
            && t.gone == s.gone
  {
    hide SourceOf;
    var inOrder := NoneRotated(c.info, c.all);
    var s := AfterPrecomp(c);
    AfterPrecompLaw(c);
    GreedyFillLawful(c, inOrder, s);
    GreedyFillSplits(s);
    var t := GreedyFill(s);
    if t.pre != [] {
      RestLaw(c, inOrder, t);
    }
  }

  /** Where the plan may put layer `d` on a dedicated plane and layer `p` in the precomposition. */
  lemma {:induction false} PlanOrder(c: PlanInput, d: nat, p: nat)
    requires Given(c)
    requires d in SourceOf(Provision(c.info, c.all, c.usable).ded)
    ensures d in c.all && d < |c.info| && CheckLayer(d, c.info[d])
    ensures p in PreSources(Provision(c.info, c.all, c.usable)) && !c.info[d].isProtected ==> d < p
  {
    hide Lawful, SourceOf;
    var s, t := AfterPrecomp(c), Provision(c.info, c.all, c.usable);
    LastStage(c);
    var m := Min(|s.layers|, |s.planes|);
    AfterPrecompLaw(c);
    SourcesInRange(c, NoneRotated(c.info, c.all), t, d);
    AfterPrecompMembers(c, d);
    AfterProtectedMembers(c, d);
    AfterRotatedMembers(c, d);
    if d in s.layers[..m] {
      LayersAscend(c, s, m, d, p);
      if p in PreSources(s) {
        AfterPrecompOrder(c, d, p);
      }
    }
  }

  lemma {:induction false} LayersAscend(c: PlanInput, s: State, m: nat, d: nat, p: nat)
    requires Lawful(c, NoneRotated(c.info, c.all), s) && m <= |s.layers|
    requires d in s.layers[..m]
    ensures d in s.layers
    ensures p in s.layers[m..] ==> d < p
  {
  }

  /**
   * The dedicated planes show the rotated protected layers from the top down, then layers above all of them in z-order.
   */
  lemma {:induction false} PlanShape(c: PlanInput) returns (upright: seq<nat>)
    requires Given(c)
    ensures SourceOf(Provision(c.info, c.all, c.usable).ded) == RotatedPart(c) + upright && Ascending(upright)
    ensures forall d :: d in upright ==> d in AfterRotated(c).layers
  {
    hide Lawful, SourceOf, Ascending, RotatedPart;
    var s := AfterPrecomp(c);
    LastStage(c);
    AfterPrecompLaw(c);
    var m := Min(|s.layers|, |s.planes|);
    var up := AfterProtectedOrder(c);
    forall i | i in s.layers
      ensures i in AfterProtected(c.info, c.all, c.usable).layers && i in AfterRotated(c).layers
    {
      LayersInRange(c, s, i);
      AfterPrecompMembers(c, i);
    }
    assert Ascending(s.layers) by { LayersAscending(c, s); }
    JoinAscends(up, s.layers, m);
    upright := up + s.layers[..m];
    assert RotatedPart(c) + up + s.layers[..m] == RotatedPart(c) + upright;
  }

  lemma {:induction false} LayersInRange(c: PlanInput, s: State, i: nat)
    requires Lawful(c, NoneRotated(c.info, c.all), s) && i in s.layers
    ensures i < |c.info|
  {
  }

  lemma {:induction false} LayersAscending(c: PlanInput, s: State)
    requires Lawful(c, NoneRotated(c.info, c.all), s)
    ensures Ascending(s.layers)
  {
  }

  // ----- the rotated layers, from what the planner is given -----

  /** The layers that pass the check of the display controller, in order. */
  function Supported(info: seq<Layer>, layers: seq<nat>): (r: seq<nat>)
    requires InRange(info, layers)
    ensures forall i :: i in r ==> i in layers
  {
    if layers == [] then []
    else
      assert layers[0] in layers && forall i :: i in layers[1..] ==> i in layers;
      (if CheckLayer(layers[0], info[layers[0]]) then [layers[0]] else []) + Supported(info, layers[1..])
  }

  function RotatedOnes(info: seq<Layer>, layers: seq<nat>): (r: seq<nat>)
    requires InRange(info, layers)
    ensures forall i :: i in r ==> i in layers
  {
    if layers == [] then []
    else
      assert layers[0] in layers && forall i :: i in layers[1..] ==> i in layers;
      (if IsRotatedProtected(info[layers[0]]) then [layers[0]] else []) + RotatedOnes(info, layers[1..])
  }

  function PrimaryCount(planes: seq<HwPlane>): nat {
    if planes == [] then 0 else (if planes[0].isPrimary then 1 else 0) + PrimaryCount(planes[1..])
  }

  /** Some unprotected layer does not pass the check, so it is precomposed. */
  ghost predicate NeedsPrecomp(info: seq<Layer>, layers: seq<nat>)
    requires InRange(info, layers)
  {
    exists i :: i in layers && !info[i].isProtected && !CheckLayer(i, info[i])
  }

  /** The planes left for the rotated layers: all but the highest when there is a precomposition by then. */
  ghost function PlanesLeft(c: PlanInput): seq<HwPlane>
    requires Given(c)
  {
    if c.usable != [] && (|c.all| > |c.usable| || NeedsPrecomp(c.info, c.all)) then c.usable[..|c.usable| - 1]
    else c.usable
  }

  function Backwards<T>(s: seq<T>): (r: seq<T>)
    ensures |r| == |s|
  {
    if s == [] then [] else Backwards(s[1..]) + [s[0]]
  }

  function First(s: seq<nat>, n: nat): seq<nat> {
    if n < |s| then s[..n] else s
  }

  function WithoutHighest(planes: seq<HwPlane>): seq<HwPlane> {
    if planes == [] then [] else planes[..|planes| - 1]
  }

  /**
   * From position `k` on, `t` has the supported layers of `s`, and
   * its planes without that of a precomposition queued on the way.
   */
  ghost predicate LimitsLeft(info: seq<Layer>, s: State, k: nat, t: State)
    requires k <= |s.layers| && InRange(info, s.layers[k..])
  {
    && t.layers == s.layers[..k] + Supported(info, s.layers[k..])
    && t.planes == if s.pre == [] && NeedsPrecomp(info, s.layers[k..]) then WithoutHighest(s.planes) else s.planes
  }

  lemma {:induction false} LimitsLeave(info: seq<Layer>, s: State, k: nat)
    requires k <= |s.layers| && InRange(info, s.layers)
    ensures InRange(info, s.layers[k..]) && LimitsLeft(info, s, k, NvLimits(info, s, k))
    decreases |s.layers| - k
  {
    hide InRange, LimitsLeft, CheckLayer;
    InRangeParts(info, s.layers, k);
    if k == |s.layers| {
      NothingLeft(info, s);
    } else {
      InRangeParts(info, s.layers, k + 1);
      InRangeWithout(info, s.layers, k);
      WithoutParts(s.layers, k);
      if CheckLayer(s.layers[k], info[s.layers[k]]) {
        LimitsLeave(info, s, k + 1);
        LeftKept(info, s, k, NvLimits(info, s, k));
      } else if info[s.layers[k]].isProtected {
        LimitsLeave(info, Drop(s, k), k);
        LeftDropped(info, s, k, NvLimits(info, s, k));
      } else {
        LimitsLeave(info, ToPrecomp(s, k), k);
        LeftPrecomposed(info, s, k, NvLimits(info, s, k));
      }
    }
  }

  lemma {:induction false} NothingLeft(info: seq<Layer>, s: State)
    requires InRange(info, s.layers)
    ensures InRange(info, s.layers[|s.layers|..]) && LimitsLeft(info, s, |s.layers|, s)
  {
    assert s.layers[|s.layers|..] == [];
  }

  lemma {:induction false} LeftKept(info: seq<Layer>, s: State, k: nat, t: State)
    requires k < |s.layers| && InRange(info, s.layers) && InRange(info, s.layers[k..])
             && InRange(info, s.layers[k + 1..])
    requires s.layers[k] < |info| && CheckLayer(s.layers[k], info[s.layers[k]]) && LimitsLeft(info, s, k + 1, t)
    ensures LimitsLeft(info, s, k, t)
  {
    NextLayer(info, s.layers, k);
    hide InRange, CheckLayer, Supported, NeedsPrecomp;
    var x, rest := s.layers[k], Supported(info, s.layers[k + 1..]);
    assert s.layers[..k] + [x] + rest == s.layers[..k] + ([x] + rest);
  }

  lemma {:induction false} LeftDropped(info: seq<Layer>, s: State, k: nat, t: State)
    requires k < |s.layers| && InRange(info, s.layers) && InRange(info, s.layers[k..])
    requires Without(s.layers, k)[k..] == s.layers[k + 1..] && Without(s.layers, k)[..k] == s.layers[..k]
    requires InRange(info, s.layers[k + 1..]) && s.layers[k] < |info|
    requires !CheckLayer(s.layers[k], info[s.layers[k]]) && info[s.layers[k]].isProtected
    requires LimitsLeft(info, Drop(s, k), k, t)
    ensures LimitsLeft(info, s, k, t)
  {
    NextLayer(info, s.layers, k);
    hide InRange, CheckLayer, Supported, NeedsPrecomp;
    assert [] + Supported(info, s.layers[k + 1..]) == Supported(info, s.layers[k + 1..]);
  }

  lemma {:induction false} LeftPrecomposed(info: seq<Layer>, s: State, k: nat, t: State)
    requires k < |s.layers| && InRange(info, s.layers) && InRange(info, s.layers[k..])
    requires Without(s.layers, k)[k..] == s.layers[k + 1..] && Without(s.layers, k)[..k] == s.layers[..k]
    requires InRange(info, s.layers[k + 1..]) && s.layers[k] < |info|
    requires !CheckLayer(s.layers[k], info[s.layers[k]]) && !info[s.layers[k]].isProtected
    requires LimitsLeft(info, ToPrecomp(s, k), k, t)
    ensures LimitsLeft(info, s, k, t)
  {
    NextLayer(info, s.layers, k);
    hide InRange, CheckLayer, Supported, NeedsPrecomp;
    assert [] + Supported(info, s.layers[k + 1..]) == Supported(info, s.layers[k + 1..]);
  }

  lemma {:induction false} InRangeParts(info: seq<Layer>, layers: seq<nat>, k: nat)
    requires InRange(info, layers) && k <= |layers|
    ensures InRange(info, layers[k..]) && (k < |layers| ==> layers[k] < |info|)
  {
    assert forall i :: i in layers[k..] ==> i in layers;
    assert k < |layers| ==> layers[k] in layers;
  }

  lemma {:induction false} InRangeWithout(info: seq<Layer>, layers: seq<nat>, k: nat)
    requires InRange(info, layers) && k < |layers|
    ensures InRange(info, Without(layers, k))
  {
  }

  lemma {:induction false} WithoutParts(s: seq<nat>, k: nat)
    requires k < |s|
    ensures Without(s, k)[..k] == s[..k] && Without(s, k)[k..] == s[k + 1..]
  {
  }

  /** The next layer is kept, dropped, or the reason for a precomposition. */
  lemma {:induction false} NextLayer(info: seq<Layer>, layers: seq<nat>, k: nat)
    requires InRange(info, layers) && k < |layers|
    ensures InRange(info, layers[k..]) && InRange(info, layers[k + 1..]) && layers[k] < |info|
    ensures var x := layers[k];
            && Supported(info, layers[k..]) ==
                 (if CheckLayer(x, info[x]) then [x] else []) + Supported(info, layers[k + 1..])
            && (NeedsPrecomp(info, layers[k..])
                <==> (!info[x].isProtected && !CheckLayer(x, info[x])) || NeedsPrecomp(info, layers[k + 1..]))
            && layers[..k + 1] == layers[..k] + [x]
  {
    InRangeParts(info, layers, k);
    InRangeParts(info, layers, k + 1);
    assert layers[k..][0] == layers[k] && layers[k..][1..] == layers[k + 1..];
    assert layers[k..] == [layers[k]] + layers[k + 1..];
    hide CheckLayer;
  }

  lemma {:induction false} TakingPrimary(planes: seq<HwPlane>)
    ensures FirstPrimary(planes) < |planes| <==> PrimaryCount(planes) > 0
    ensures FirstPrimary(planes) < |planes| ==>
              PrimaryCount(Without(planes, FirstPrimary(planes))) == PrimaryCount(planes) - 1
  {
    if planes != [] && !planes[0].isPrimary {
      TakingPrimary(planes[1..]);
      var j := FirstPrimary(planes[1..]);
      if j < |planes[1..]| {
        assert Without(planes, j + 1)[0] == planes[0] && Without(planes, j + 1)[1..] == Without(planes[1..], j);
      }
    } else if planes != [] {
      assert Without(planes, 0) == planes[1..];
    }
  }

  lemma {:induction false} FirstBackwards(x: nat, rest: seq<nat>, n: nat)
    ensures n > 0 ==> Backwards(First([x] + rest, n)) == Backwards(First(rest, n - 1)) + [x]
    ensures First(rest, 0) == [] && First([x] + rest, 0) == [] && Backwards<nat>([]) == []
  {
    if n > 0 {
      assert First([x] + rest, n) == [x] + First(rest, n - 1);
      assert ([x] + First(rest, n - 1))[1..] == First(rest, n - 1);
    }
  }

  /**
   * From position `k` on, `ded` starts with the rotated layers for which there are primary planes, the highest first.
   */
  ghost predicate RotatedTaken(info: seq<Layer>, s: State, k: nat, ded: seq<CompositionPlane>)
    requires k <= |s.layers| && InRange(info, s.layers[k..])
  {
    TakenInFront(RotatedOnes(info, s.layers[k..]), PrimaryCount(s.planes), SourceOf(s.ded), SourceOf(ded))
  }

  /** `all` are the first `n` of `ones`, the last of them first, in front of `before`. */
  ghost predicate TakenInFront(ones: seq<nat>, n: nat, before: seq<nat>, all: seq<nat>) {
    all == Backwards(First(ones, n)) + before
  }

  lemma {:induction false} RotatedTakes(info: seq<Layer>, s: State, k: nat, z: int)
    requires k <= |s.layers| && InRange(info, s.layers)
    ensures InRange(info, s.layers[k..]) && RotatedTaken(info, s, k, Rotated(info, s, k, z).0.ded)
    decreases |s.layers| - k
  {
    hide InRange, RotatedTaken, IsRotatedProtected, SourceOf;
    InRangeParts(info, s.layers, k);
    if k == |s.layers| {
      NothingTaken(info, s);
    } else {
      InRangeParts(info, s.layers, k + 1);
      InRangeWithout(info, s.layers, k);
      WithoutParts(s.layers, k);
      var t := Rotated(info, s, k, z).0;
      if IsRotatedProtected(info[s.layers[k]]) {
        RotatedTakes(info, PlaceRotated(s, k), k, if FirstPrimary(s.planes) < |s.planes| then s.layers[k] else z);
        TakenPlaced(info, s, k, t.ded);
      } else {
        RotatedTakes(info, s, k + 1, z);
        TakenSkipped(info, s, k, t.ded);
      }
    }
  }

  lemma {:induction false} NothingTaken(info: seq<Layer>, s: State)
    requires InRange(info, s.layers)
    ensures InRange(info, s.layers[|s.layers|..]) && RotatedTaken(info, s, |s.layers|, s.ded)
  {
    assert s.layers[|s.layers|..] == [];
    hide SourceOf;
    assert [] + SourceOf(s.ded) == SourceOf(s.ded);
  }

  lemma {:induction false} NextRotated(info: seq<Layer>, layers: seq<nat>, k: nat)
    requires InRange(info, layers) && k < |layers|
    ensures InRange(info, layers[k..]) && InRange(info, layers[k + 1..]) && layers[k] < |info|
    ensures RotatedOnes(info, layers[k..])
         == (if IsRotatedProtected(info[layers[k]]) then [layers[k]] else []) + RotatedOnes(info, layers[k + 1..])
  {
    InRangeParts(info, layers, k);
    InRangeParts(info, layers, k + 1);
    assert layers[k..][0] == layers[k] && layers[k..][1..] == layers[k + 1..];
  }

  lemma {:induction false} TakenSkipped(info: seq<Layer>, s: State, k: nat, ded: seq<CompositionPlane>)
    requires k < |s.layers| && InRange(info, s.layers) && InRange(info, s.layers[k..])
             && InRange(info, s.layers[k + 1..])
    requires s.layers[k] < |info| && !IsRotatedProtected(info[s.layers[k]]) && RotatedTaken(info, s, k + 1, ded)
    ensures RotatedTaken(info, s, k, ded)
  {
    NextRotated(info, s.layers, k);
    hide InRange, IsRotatedProtected, RotatedOnes, First, Backwards, PrimaryCount, SourceOf;
    assert [] + RotatedOnes(info, s.layers[k + 1..]) == RotatedOnes(info, s.layers[k + 1..]);
  }

  /** What placing the layer at position `k` does to the planes and to the sources. */
  lemma {:induction false} PlacedParts(s: State, k: nat)
    requires k < |s.layers|
    ensures var u, n := PlaceRotated(s, k), PrimaryCount(s.planes);
            && u.layers == Without(s.layers, k)
            && PrimaryCount(u.planes) == (if n > 0 then n - 1 else 0)
            && SourceOf(u.ded) == (if n > 0 then [s.layers[k]] else []) + SourceOf(s.ded)
  {
    TakingPrimary(s.planes);
    var j := FirstPrimary(s.planes);
    hide FirstPrimary, PrimaryCount;
    if j < |s.planes| {
      Appended(s.ded, CompositionPlane(LayerPlane, s.planes[j], [s.layers[k]]), s.layers[k]);
    } else {
      hide SourceOf;
      assert [] + SourceOf(s.ded) == SourceOf(s.ded);
    }
  }

  lemma {:induction false} OneTaken(x: nat, rest: seq<nat>, n: nat, before: seq<nat>, all: seq<nat>)
    requires TakenInFront(rest, if n > 0 then n - 1 else 0, (if n > 0 then [x] else []) + before, all)
    ensures TakenInFront([x] + rest, n, before, all)
  {
    FirstBackwards(x, rest, n);
    hide Backwards, First;
    if n > 0 {
      var first := Backwards(First(rest, n - 1));
      assert first + ([x] + before) == first + [x] + before;
    } else {
      assert [] + before == before;
    }
  }

  lemma {:induction false} TakenPlaced(info: seq<Layer>, s: State, k: nat, ded: seq<CompositionPlane>)
    requires k < |s.layers| && InRange(info, s.layers) && InRange(info, s.layers[k..])
             && InRange(info, s.layers[k + 1..])
    requires Without(s.layers, k)[k..] == s.layers[k + 1..]
    requires s.layers[k] < |info| && IsRotatedProtected(info[s.layers[k]])
    requires RotatedTaken(info, PlaceRotated(s, k), k, ded)
    ensures RotatedTaken(info, s, k, ded)
  {
    var rest, n := RotatedOnes(info, s.layers[k + 1..]), PrimaryCount(s.planes);
    NextRotated(info, s.layers, k);
    PlacedParts(s, k);
    hide InRange, IsRotatedProtected, RotatedOnes, TakenInFront, PrimaryCount, FirstPrimary, PlaceRotated, SourceOf,
         Without;
    OneTaken(s.layers[k], rest, n, SourceOf(s.ded), SourceOf(ded));
  }

  /** The rotated protected layers the display controller supports, lowest first, as far as primary planes go. */
  ghost function RotatedGiven(c: PlanInput): seq<nat>
    requires Given(c)
  {
    First(RotatedOnes(c.info, Supported(c.info, c.all)), PrimaryCount(PlanesLeft(c)))
  }

  /** The rotated part of a plan is that list turned over. */
  lemma {:induction false} RotatedPartIsGiven(c: PlanInput)
    requires Given(c)
    ensures RotatedPart(c) == Backwards(RotatedGiven(c))
  {
    hide Lawful, SourceOf, RotatedOnes, Supported, First, Backwards, PrimaryCount, NeedsPrecomp, LimitsLeft,
         RotatedTaken;
    var i, s := InitialState(c.all, c.usable), AfterLimits(c.info, c.all, c.usable);
    assert i.layers == c.all;
    LimitsLeave(c.info, i, 0);
    LimitsLeftGiven(c, s);
    RotatedTakes(c.info, s, 0, -1);
    AfterLimitsLaw(c, 0);
    OrderOnlyWeakens(c, s, true);
    RotatedLawful(c, s, 0, -1);
    var (t, z) := Rotated(c.info, s, 0, -1);
    if z != -1 {
      BelowLawful(c, false, t, 0, z);
    }
    TakenGiven(c, s, t.ded);
  }

  lemma {:induction false} LimitsLeftGiven(c: PlanInput, s: State)
    requires Given(c) && var i := InitialState(c.all, c.usable);
                         i.layers == c.all && InRange(c.info, i.layers[0..]) && LimitsLeft(c.info, i, 0, s)
    ensures s.layers == Supported(c.info, c.all) && s.planes == PlanesLeft(c)
  {
    assert c.all[0..] == c.all;
    hide Supported, NeedsPrecomp;
    assert [] + Supported(c.info, c.all) == Supported(c.info, c.all);
  }

  lemma {:induction false} TakenGiven(c: PlanInput, s: State, ded: seq<CompositionPlane>)
    requires Given(c) && s.layers == Supported(c.info, c.all) && s.planes == PlanesLeft(c) && s.ded == []
    requires InRange(c.info, s.layers[0..]) && RotatedTaken(c.info, s, 0, ded)
    ensures SourceOf(ded) == Backwards(RotatedGiven(c))
  {
    assert s.layers[0..] == s.layers;
    NothingDedicated(s.ded);
    hide SourceOf, Supported, RotatedOnes, First, Backwards, PrimaryCount, PlanesLeft;
  }

  ghost predicate AllPrimary(ded: seq<CompositionPlane>) {
    forall k :: 0 <= k < |ded| ==> ded[k].plane.isPrimary
  }

  lemma {:induction false} RotatedTakesPrimaries(info: seq<Layer>, s: State, k: nat, z: int)
    requires k <= |s.layers| && InRange(info, s.layers) && AllPrimary(s.ded)
    ensures AllPrimary(Rotated(info, s, k, z).0.ded)
    decreases |s.layers| - k
  {
    if k < |s.layers| {
      assert s.layers[k] in s.layers;
      if IsRotatedProtected(info[s.layers[k]]) {
        RotatedTakesPrimaries(info, PlaceRotated(s, k), k,
                              if FirstPrimary(s.planes) < |s.planes| then s.layers[k] else z);
      } else {
        RotatedTakesPrimaries(info, s, k + 1, z);
      }
    }
  }

  ghost predicate OnePrimary(planes: seq<HwPlane>) {
    forall i, j :: 0 <= i < j < |planes| ==> !(planes[i].isPrimary && planes[j].isPrimary)
  }

  lemma {:induction false} Elsewhere(planes: seq<HwPlane>, i: nat, y: HwPlane) returns (j: nat)
    requires i < |planes| && multiset{planes[i], y} <= multiset(planes)
    ensures j < |planes| && j != i && planes[j] == y
  {
    var rest := planes[..i] + planes[i + 1..];
    assert planes == planes[..i] + [planes[i]] + planes[i + 1..];
    assert y in multiset(rest);
    var k: nat :| k < |rest| && rest[k] == y;
    j := if k < i then k else k + 1;
  }

  /** Of two primary planes from a list one is elsewhere in the list than the other. */
  lemma {:induction false} TwoPrimaries(planes: seq<HwPlane>, x: HwPlane, y: HwPlane)
    requires x.isPrimary && y.isPrimary && multiset{x, y} <= multiset(planes)
    ensures !OnePrimary(planes)
  {
    assert x in multiset(planes);
    var i: nat :| i < |planes| && planes[i] == x;
    var j := Elsewhere(planes, i, y);
    assert planes[if i < j then i else j].isPrimary && planes[if i < j then j else i].isPrimary;
  }

  /** With one primary plane at most one layer is placed for its rotation. */
  lemma {:induction false} OnePrimaryOneRotated(c: PlanInput)
    requires Given(c) && OnePrimary(c.usable)
    ensures |RotatedPart(c)| <= 1
  {
    hide Lawful, OnePrimary, AllPrimary, SourceOf;
    var s, r := AfterLimits(c.info, c.all, c.usable), AfterRotated(c);
    AfterLimitsLaw(c, 0);
    assert AllPrimary(s.ded) by { NoneIsAllPrimary(s.ded); }
    RotatedTakesPrimaries(c.info, s, 0, -1);
    OrderOnlyWeakens(c, s, true);
    RotatedLawful(c, s, 0, -1);
    var (t, z) := Rotated(c.info, s, 0, -1);
    if z != -1 {
      BelowLawful(c, false, t, 0, z);
    }
    LawfulPrimaries(c, r);
  }

  lemma {:induction false} NoneIsAllPrimary(ded: seq<CompositionPlane>)
    requires ded == []
    ensures AllPrimary(ded)
  {
  }

  lemma {:induction false} LawfulPrimaries(c: PlanInput, s: State)
    requires Lawful(c, false, s) && AllPrimary(s.ded) && OnePrimary(c.usable)
    ensures |s.ded| <= 1
  {
    hide OnePrimary, Shape, Conserved, Capacity, Ascending;
    if |s.ded| > 1 {
      var h := HardwareOf(s.ded);
      assert multiset(h) <= multiset(c.usable);
      assert h == [h[0], h[1]] + h[2..];
      TwoPrimaries(c.usable, h[0], h[1]);
    }
  }

  /** Protected layers are precomposed only when they are not above every rotated one that has a plane. */
  lemma {:induction false} PrecomposedProtected(c: PlanInput, i: nat)
    requires Given(c) && i < |c.info| && c.info[i].isProtected && i in PreSources(Provision(c.info, c.all, c.usable))
    ensures i <= Mark(RotatedPart(c))
  {
    hide Lawful, SourceOf, RotatedPart;
    LastStage(c);
    AfterPrecompMembers(c, i);
  }

  /**
   * Without rotated protected layers the dedicated planes show layers
   * in z-order and the precomposition shows none that is protected.
   */
  lemma {:induction false} PlanOrderUnrotated(c: PlanInput)
    requires Given(c) && NoneRotated(c.info, c.all)
    ensures var t := Provision(c.info, c.all, c.usable);
            && Ascending(SourceOf(t.ded))
            && (forall p :: p in PreSources(t) ==> p in c.all && p < |c.info| && !c.info[p].isProtected)
            && HardwareOf(t.ded) + t.planes + HardwareOf(t.pre) == c.usable
  {
    hide SourceOf, Ascending, Conserved, RotatedPart;
    var t := Provision(c.info, c.all, c.usable);
    AfterRotatedLaw(c);
    var upright := PlanShape(c);
    assert [] + upright == upright;
    LastStage(c);
    forall p | p in PreSources(t)
      ensures p in c.all && p < |c.info| && !c.info[p].isProtected
    {
      SourcesInRange(c, true, t, p);
      if c.info[p].isProtected {
        PrecomposedProtected(c, p);
      }
    }
  }

  lemma {:induction false} JoinAscends(low: seq<nat>, high: seq<nat>, m: nat)
    requires Ascending(low) && Ascending(high) && AllBelow(low, high) && m <= |high|
    ensures Ascending(low + high[..m])
  {
    assert forall k :: 0 <= k < |low| ==> low[k] in low;
    assert forall k :: 0 <= k < |high| ==> high[k] in high;
  }

  lemma {:induction false} PlanLawful(c: PlanInput)
    requires Given(c)
    ensures Lawful(c, NoneRotated(c.info, c.all), Provision(c.info, c.all, c.usable))
    ensures c.usable != [] ==> Provision(c.info, c.all, c.usable).layers == []
  {
    hide Lawful;
    LastStage(c);
  }

  ghost function Placed(s: State): seq<nat> {
    SourceOf(s.ded) + PreSources(s)
  }

  lemma {:induction false} OnceBetween(below: seq<nat>, i: nat, above: seq<nat>)
    requires i !in below && i !in above
    ensures multiset(below + [i] + above)[i] == 1
  {
  }

  lemma {:induction false} AtMostOnce(s: seq<nat>, i: nat)
    requires Ascending(s)
    ensures multiset(s)[i] == if i in s then 1 else 0
  {
    if i in s {
      var k :| 0 <= k < |s| && s[k] == i;
      forall j | 0 <= j < |s| && j != k
        ensures s[j] != i
      {
      }
      hide Ascending;
      OnceBetween(s[..k], i, s[k + 1..]);
      assert s == s[..k] + [i] + s[k + 1..];
    }
  }

  /**
   * Every layer is shown at most once, every unprotected one exactly once unless there is no plane to put it on,
   * and no hardware plane is used twice.
   */
  lemma {:induction false} EveryLayerPlacedOnce(c: PlanInput, i: nat)
    requires Given(c) && i in c.all
    ensures var t := Provision(c.info, c.all, c.usable);
            && multiset(Placed(t))[i] <= 1
            && (!c.info[i].isProtected ==> (multiset(Placed(t))[i] == 1 <==> c.usable != []))
            && multiset(HardwareOf(t.ded) + HardwareOf(t.pre)) <= multiset(c.usable)
  {
    var t := Provision(c.info, c.all, c.usable);
    PlanLawful(c);
    AtMostOnce(c.all, i);
    assert multiset(Placed(t)) == multiset(SourceOf(t.ded)) + multiset(PreSources(t));
    assert multiset(c.all)[i] == 1;
    if !c.info[i].isProtected && c.usable != [] {
      assert i !in t.gone;
      assert multiset(t.gone)[i] == 0;
    }
  }

  lemma {:induction false} LimitsIdle(info: seq<Layer>, s: State, k: nat)
    requires k <= |s.layers| && InRange(info, s.layers)
    requires forall i :: i in s.layers ==> CheckLayer(i, info[i])
    ensures NvLimits(info, s, k) == s
    decreases |s.layers| - k
  {
    if k < |s.layers| {
      assert s.layers[k] in s.layers;
      LimitsIdle(info, s, k + 1);
    }
  }

  lemma {:induction false} ProtectedIdle(info: seq<Layer>, s: State, k: nat, z: int)
    requires k <= |s.layers| && InRange(info, s.layers)
    requires forall i :: i in s.layers ==> !info[i].isProtected
    ensures Protected(info, s, k, z) == (s, z)
    decreases |s.layers| - k
  {
    if k < |s.layers| {
      assert s.layers[k] in s.layers;
      ProtectedIdle(info, s, k + 1, z);
    }
  }

  /** The ordinary case in full: the lowest layers get a plane each, and only the overflow is precomposed. */
  lemma {:induction false} PlainStack(c: PlanInput)
    requires Given(c) && c.usable != []
    requires forall i :: i in c.all ==> CheckLayer(i, c.info[i]) && !c.info[i].isProtected
    ensures var t := Provision(c.info, c.all, c.usable);
            var m := if |c.all| <= |c.usable| then |c.all| else |c.usable| - 1;
            SourceOf(t.ded) == c.all[..m] && PreSources(t) == c.all[m..]
  {
    var s := InitialState(c.all, c.usable);
    LimitsIdle(c.info, s, 0);
    RotatedIdle(c.info, s, 0, -1);
    ProtectedIdle(c.info, s, 0, -1);
    LastStage(c);
    NothingDedicated(s.ded);
  }
}
