/** What the planner's stages keep and reach: conservation of layers and planes, and their order. */
module PlanLaws {
  import opened Geometry
  import opened Layers
  import opened CompositionTypes
  import opened PlanStages

  function SourceOf(planes: seq<CompositionPlane>): (s: seq<nat>)
    ensures |s| == |planes|
  {
    seq(|planes|, k requires 0 <= k < |planes| => if planes[k].sources == [] then 0 else planes[k].sources[0])
  }

  function HardwareOf(planes: seq<CompositionPlane>): (s: seq<HwPlane>)
    ensures |s| == |planes|
  {
    seq(|planes|, k requires 0 <= k < |planes| => planes[k].plane)
  }

  function PreSources(s: State): seq<nat> {
    if s.pre == [] then [] else s.pre[0].sources
  }

  ghost predicate AllBelow(s: seq<nat>, t: seq<nat>) {
    forall i, j :: i in s && j in t ==> i < j
  }

  ghost predicate Shape(s: State) {
    && (forall k :: 0 <= k < |s.ded| ==> s.ded[k].kind == LayerPlane && |s.ded[k].sources| == 1)
    && |s.pre| <= 1 && (|s.pre| == 1 ==> s.pre[0].kind == Precomp)
  }

  /** Every layer is in one place. */
  ghost predicate Conserved(all: seq<nat>, layers: seq<nat>, dedicated: seq<nat>, precomp: seq<nat>, gone: seq<nat>) {
    multiset(layers) + multiset(dedicated) + multiset(precomp) + multiset(gone) == multiset(all)
  }

  /** Every plane is in one place and, while `inOrder`, the composition uses planes from the bottom up. */
  ghost predicate PlanesConserved(usable: seq<HwPlane>, inOrder: bool, below: seq<HwPlane>, planes: seq<HwPlane>,
                                  above: seq<HwPlane>) {
    && multiset(below) + multiset(planes) + multiset(above) == multiset(usable)
    && (inOrder ==> below + planes + above == usable)
  }

  /** Without a precomposition there is a plane for every layer left, so only protected layers are ever lost. */
  ghost predicate Capacity(info: seq<Layer>, room: bool, s: State) {
    if room then
      && (s.pre == [] ==> |s.layers| <= |s.planes|)
      && forall i :: i in s.gone ==> i < |info| && info[i].isProtected
    else s.planes == [] && s.ded == [] && s.pre == []
  }

  /** What never changes while the stages run. */
  datatype PlanInput = PlanInput(info: seq<Layer>, all: seq<nat>, usable: seq<HwPlane>)

  ghost predicate Lawful(c: PlanInput, inOrder: bool, s: State) {
    && Shape(s)
    && Ascending(s.layers) && InRange(c.info, s.layers)
    && Conserved(c.all, s.layers, SourceOf(s.ded), PreSources(s), s.gone)
    && PlanesConserved(c.usable, inOrder, HardwareOf(s.ded), s.planes, HardwareOf(s.pre))
    && Capacity(c.info, c.usable != [], s)
  }

  // ----- single moves -----

  lemma {:induction false} WithoutOne(s: seq<nat>, k: nat)
    requires k < |s| && Ascending(s)
    ensures Ascending(Without(s, k))
    ensures forall i :: i in Without(s, k) <==> i in s && i != s[k]
  {
    assert s == s[..k] + [s[k]] + s[k + 1..];
  }

  lemma {:induction false} MoveConserves(all: seq<nat>, layers: seq<nat>, k: nat, dedicated: seq<nat>,
                                         precomp: seq<nat>, gone: seq<nat>)
    requires Conserved(all, layers, dedicated, precomp, gone) && k < |layers|
    ensures Conserved(all, Without(layers, k), dedicated + [layers[k]], precomp, gone)
    ensures Conserved(all, Without(layers, k), [layers[k]] + dedicated, precomp, gone)
    ensures Conserved(all, Without(layers, k), dedicated, precomp + [layers[k]], gone)
    ensures Conserved(all, Without(layers, k), dedicated, precomp, gone + [layers[k]])
  {
    assert layers == layers[..k] + [layers[k]] + layers[k + 1..];
  }

  lemma {:induction false} LowestPlaneConserves(usable: seq<HwPlane>, inOrder: bool, below: seq<HwPlane>,
                                                planes: seq<HwPlane>, above: seq<HwPlane>)
    requires PlanesConserved(usable, inOrder, below, planes, above) && planes != []
    ensures PlanesConserved(usable, inOrder, below + [planes[0]], planes[1..], above)
  {
    assert planes == [planes[0]] + planes[1..];
    assert below + [planes[0]] + planes[1..] + above == below + planes + above;
  }

  lemma {:induction false} HighestPlaneConserves(usable: seq<HwPlane>, inOrder: bool, below: seq<HwPlane>,
                                                 planes: seq<HwPlane>)
    requires PlanesConserved(usable, inOrder, below, planes, []) && planes != []
    ensures PlanesConserved(usable, inOrder, below, planes[..|planes| - 1], [planes[|planes| - 1]])
  {
    assert planes == planes[..|planes| - 1] + [planes[|planes| - 1]];
    assert below + planes[..|planes| - 1] + [planes[|planes| - 1]] == below + planes + [];
  }

  lemma {:induction false} AnyPlaneConserves(usable: seq<HwPlane>, inOrder: bool, below: seq<HwPlane>,
                                             planes: seq<HwPlane>, above: seq<HwPlane>, j: nat)
    requires PlanesConserved(usable, inOrder, below, planes, above) && j < |planes|
    ensures PlanesConserved(usable, false, [planes[j]] + below, Without(planes, j), above)
  {
    assert planes == planes[..j] + [planes[j]] + planes[j + 1..];
  }

  lemma {:induction false} InitialLawful(c: PlanInput)
    requires Ascending(c.all) && InRange(c.info, c.all)
    ensures Lawful(c, true, InitialState(c.all, c.usable))
  {
    hide Ascending;
    assert SourceOf([]) == [] && HardwareOf([]) == [];
    assert [] + c.usable + [] == c.usable;
    if |c.all| > |c.usable| && c.usable != [] {
      HighestPlaneConserves(c.usable, true, [], c.usable);
      assert HardwareOf(InitialState(c.all, c.usable).pre) == [c.usable[|c.usable| - 1]];
    }
  }

  lemma {:induction false} DropLawful(c: PlanInput, inOrder: bool, s: State, k: nat)
    requires Lawful(c, inOrder, s) && k < |s.layers|
    requires s.layers[k] < |c.info| && c.info[s.layers[k]].isProtected
    ensures Lawful(c, inOrder, Drop(s, k))
  {
    hide Conserved, PlanesConserved, Ascending, HardwareOf, SourceOf;
    WithoutOne(s.layers, k);
    MoveConserves(c.all, s.layers, k, SourceOf(s.ded), PreSources(s), s.gone);
  }

  lemma {:induction false} ToPrecompLawful(c: PlanInput, inOrder: bool, s: State, k: nat)
    requires Lawful(c, inOrder, s) && k < |s.layers|
    ensures Lawful(c, inOrder, ToPrecomp(s, k))
    ensures c.usable != [] ==> ToPrecomp(s, k).pre != [] && ToPrecomp(s, k).gone == s.gone
    ensures ToPrecomp(s, k).pre != [] ==> PreSources(ToPrecomp(s, k)) == PreSources(s) + [s.layers[k]]
  {
    hide Conserved, PlanesConserved, Ascending, SourceOf;
    WithoutOne(s.layers, k);
    MoveConserves(c.all, s.layers, k, SourceOf(s.ded), PreSources(s), s.gone);
    var t := ToPrecomp(s, k);
    if s.pre != [] {
      assert HardwareOf(t.pre) == HardwareOf(s.pre);
    } else if s.planes != [] {
      assert HardwareOf(s.pre) == [];
      HighestPlaneConserves(c.usable, inOrder, HardwareOf(s.ded), s.planes);
      assert HardwareOf(t.pre) == [s.planes[|s.planes| - 1]];
      assert PreSources(t) == PreSources(s) + [s.layers[k]];
    }
  }

  lemma {:induction false} Appended(ded: seq<CompositionPlane>, plane: CompositionPlane, i: nat)
    requires plane.sources == [i]
    ensures SourceOf(ded + [plane]) == SourceOf(ded) + [i]
            && HardwareOf(ded + [plane]) == HardwareOf(ded) + [plane.plane]
    ensures SourceOf([plane] + ded) == [i] + SourceOf(ded)
            && HardwareOf([plane] + ded) == [plane.plane] + HardwareOf(ded)
  {
  }

  lemma {:induction false} DedicateLawful(c: PlanInput, inOrder: bool, s: State, k: nat)
    requires Lawful(c, inOrder, s) && k < |s.layers|
    requires s.planes == [] ==> s.layers[k] < |c.info| && c.info[s.layers[k]].isProtected
    ensures Lawful(c, inOrder, Dedicate(s, k))
    ensures s.planes != [] ==> SourceOf(Dedicate(s, k).ded) == SourceOf(s.ded) + [s.layers[k]]
    ensures s.planes == [] ==> Dedicate(s, k).ded == s.ded
  {
    if s.planes == [] {
      DropLawful(c, inOrder, s, k);
    } else {
      hide Conserved, PlanesConserved, Ascending, SourceOf, HardwareOf;
      WithoutOne(s.layers, k);
      MoveConserves(c.all, s.layers, k, SourceOf(s.ded), PreSources(s), s.gone);
      LowestPlaneConserves(c.usable, inOrder, HardwareOf(s.ded), s.planes, HardwareOf(s.pre));
      Appended(s.ded, CompositionPlane(LayerPlane, s.planes[0], [s.layers[k]]), s.layers[k]);
    }
  }

  lemma {:induction false} PlaceRotatedLawful(c: PlanInput, inOrder: bool, s: State, k: nat)
    requires Lawful(c, inOrder, s) && k < |s.layers|
    requires s.layers[k] < |c.info| && c.info[s.layers[k]].isProtected
    ensures Lawful(c, false, PlaceRotated(s, k))
    ensures SourceOf(PlaceRotated(s, k).ded)
         == if FirstPrimary(s.planes) < |s.planes| then [s.layers[k]] + SourceOf(s.ded) else SourceOf(s.ded)
  {
    hide Conserved, PlanesConserved, Ascending, SourceOf, HardwareOf, FirstPrimary;
    var j := FirstPrimary(s.planes);
    if j < |s.planes| {
      WithoutOne(s.layers, k);
      MoveConserves(c.all, s.layers, k, SourceOf(s.ded), PreSources(s), s.gone);
      AnyPlaneConserves(c.usable, inOrder, HardwareOf(s.ded), s.planes, HardwareOf(s.pre), j);
      Appended(s.ded, CompositionPlane(LayerPlane, s.planes[j], [s.layers[k]]), s.layers[k]);
    } else {
      DropLawful(c, inOrder, s, k);
      OrderOnlyWeakens(c, Drop(s, k), inOrder);
    }
  }

  /** Whether the planes are still in order only adds to what is kept. */
  lemma {:induction false} OrderOnlyWeakens(c: PlanInput, s: State, inOrder: bool)
    requires Lawful(c, inOrder, s)
    ensures Lawful(c, false, s)
  {
    hide Shape, Ascending, Conserved, Capacity;
  }

  // ----- whole stages -----

  lemma {:induction false} NvLimitsLawful(c: PlanInput, inOrder: bool, s: State, k: nat)
    requires Lawful(c, inOrder, s) && k <= |s.layers|
    ensures Lawful(c, inOrder, NvLimits(c.info, s, k)) && NvLimits(c.info, s, k).ded == s.ded
    decreases |s.layers| - k
  {
    hide Lawful;
    if k < |s.layers| {
      InRangeOf(c, inOrder, s, k);
      var i := s.layers[k];
      if CheckLayer(i, c.info[i]) {
        NvLimitsLawful(c, inOrder, s, k + 1);
      } else if c.info[i].isProtected {
        DropLawful(c, inOrder, s, k);
        NvLimitsLawful(c, inOrder, Drop(s, k), k);
      } else {
        ToPrecompLawful(c, inOrder, s, k);
        NvLimitsLawful(c, inOrder, ToPrecomp(s, k), k);
      }
    }
  }

  lemma {:induction false} InRangeOf(c: PlanInput, inOrder: bool, s: State, k: nat)
    requires Lawful(c, inOrder, s) && k < |s.layers|
    ensures s.layers[k] < |c.info| && InRange(c.info, s.layers)
  {
    assert s.layers[k] in s.layers;
  }

  lemma {:induction false} NvLimitsMembers(c: PlanInput, inOrder: bool, s: State, k: nat, i: nat)
    requires Lawful(c, inOrder, s) && k <= |s.layers| && i < |c.info|
    requires i in s.layers[..k] ==> CheckLayer(i, c.info[i])
    ensures var t := NvLimits(c.info, s, k);
            && (i in t.layers <==> i in s.layers && CheckLayer(i, c.info[i]))
            && (i in PreSources(s) ==> i in PreSources(t))
            && (i in PreSources(t) ==>
                  i in PreSources(s) || (i in s.layers && !c.info[i].isProtected && !CheckLayer(i, c.info[i])))
            && (i in s.layers && !c.info[i].isProtected && !CheckLayer(i, c.info[i]) && c.usable != [] ==>
                  i in PreSources(t))
    decreases |s.layers| - k
  {
    hide Lawful;
    if k < |s.layers| {
      InRangeOf(c, inOrder, s, k);
      var x := s.layers[k];
      assert s.layers[..k + 1] == s.layers[..k] + [x];
      if CheckLayer(x, c.info[x]) {
        NvLimitsMembers(c, inOrder, s, k + 1, i);
      } else if c.info[x].isProtected {
        DropLawful(c, inOrder, s, k);
        WithoutMember(c, inOrder, s, k);
        NvLimitsMembers(c, inOrder, Drop(s, k), k, i);
      } else {
        ToPrecompLawful(c, inOrder, s, k);
        WithoutMember(c, inOrder, s, k);
        NvLimitsMembers(c, inOrder, ToPrecomp(s, k), k, i);
      }
    } else {
      assert s.layers[..k] == s.layers;
    }
  }

  lemma {:induction false} WithoutMember(c: PlanInput, inOrder: bool, s: State, k: nat)
    requires Lawful(c, inOrder, s) && k < |s.layers|
    ensures forall i :: i in Without(s.layers, k) <==> i in s.layers && i != s.layers[k]
    ensures Without(s.layers, k)[..k] == s.layers[..k] && Without(s.layers, k)[k..] == s.layers[k + 1..]
    ensures s.layers[k] !in s.layers[..k]
  {
    WithoutOne(s.layers, k);
  }

  ghost predicate NoneRotated(info: seq<Layer>, layers: seq<nat>) {
    forall i :: i in layers && i < |info| ==> !IsRotatedProtected(info[i])
  }

  /** Without rotated protected layers the stage for them does nothing. */
  lemma {:induction false} RotatedIdle(info: seq<Layer>, s: State, k: nat, z: int)
    requires k <= |s.layers| && InRange(info, s.layers) && NoneRotated(info, s.layers)
    ensures Rotated(info, s, k, z) == (s, z)
    decreases |s.layers| - k
  {
    if k < |s.layers| {
      assert s.layers[k] in s.layers;
      RotatedIdle(info, s, k + 1, z);
    }
  }

  lemma {:induction false} RotatedLawful(c: PlanInput, s: State, k: nat, z: int)
    requires Lawful(c, false, s) && k <= |s.layers|
    ensures var (t, z') := Rotated(c.info, s, k, z);
            && Lawful(c, false, t) && PreSources(t) == PreSources(s)
    decreases |s.layers| - k
  {
    hide Lawful;
    if k < |s.layers| {
      InRangeOf(c, false, s, k);
      var found := FirstPrimary(s.planes) < |s.planes|;
      if IsRotatedProtected(c.info[s.layers[k]]) {
        PlaceRotatedLawful(c, false, s, k);
        RotatedLawful(c, PlaceRotated(s, k), k, if found then s.layers[k] else z);
      } else {
        RotatedLawful(c, s, k + 1, z);
      }
    }
  }

  lemma {:induction false} RotatedMembers(c: PlanInput, s: State, k: nat, z: int, i: nat)
    requires Lawful(c, false, s) && k <= |s.layers| && i < |c.info|
    requires i in s.layers[..k] ==> !IsRotatedProtected(c.info[i])
    ensures var (t, z') := Rotated(c.info, s, k, z);
            && (i in t.layers <==> i in s.layers && !IsRotatedProtected(c.info[i]))
            && (i in SourceOf(t.ded) ==> i in SourceOf(s.ded) || (i in s.layers && IsRotatedProtected(c.info[i])))
    decreases |s.layers| - k
  {
    hide Lawful, SourceOf;
    if k < |s.layers| {
      InRangeOf(c, false, s, k);
      var x := s.layers[k];
      assert s.layers[..k + 1] == s.layers[..k] + [x];
      var found := FirstPrimary(s.planes) < |s.planes|;
      if IsRotatedProtected(c.info[x]) {
        PlaceRotatedLawful(c, false, s, k);
        WithoutMember(c, false, s, k);
        RotatedMembers(c, PlaceRotated(s, k), k, if found then x else z, i);
      } else {
        RotatedMembers(c, s, k + 1, z, i);
      }
    } else {
      assert s.layers[..k] == s.layers;
    }
  }

  lemma {:induction false} NextDescends(s: seq<nat>, x: nat, tail: seq<nat>)
    requires Descending(s) && AllBelow(s, [x] + tail) && AllOver(tail, x)
    ensures Descending([x] + s) && AllBelow([x] + s, tail) && AllBelow(s, tail)
  {
    assert ([x] + tail)[0] == x && x in [x] + tail && forall j :: j in tail ==> j in [x] + tail;
    assert forall k :: 0 <= k < |s| ==> s[k] in s;
  }

  /**
   * Rotated protected layers are dedicated from the top down, and the z-order the stage reports is the highest of them.
   */
  lemma {:induction false} RotatedDescends(c: PlanInput, s: State, k: nat, z: int)
    requires Lawful(c, false, s) && k <= |s.layers|
    requires Descending(SourceOf(s.ded)) && AllBelow(SourceOf(s.ded), s.layers[k..]) && z == Mark(SourceOf(s.ded))
    ensures var (t, z') := Rotated(c.info, s, k, z);
            Descending(SourceOf(t.ded)) && z' == Mark(SourceOf(t.ded))
    decreases |s.layers| - k
  {
    if k < |s.layers| {
      hide Lawful, SourceOf, Descending;
      InRangeOf(c, false, s, k);
      var x, found := s.layers[k], FirstPrimary(s.planes) < |s.planes|;
      TailOver(c, false, s, k);
      NextDescends(SourceOf(s.ded), x, s.layers[k + 1..]);
      hide AllBelow, AllOver;
      if IsRotatedProtected(c.info[x]) {
        PlaceRotatedLawful(c, false, s, k);
        WithoutMember(c, false, s, k);
        RotatedDescends(c, PlaceRotated(s, k), k, if found then x else z);
      } else {
        RotatedDescends(c, s, k + 1, z);
      }
    }
  }

  lemma {:induction false} ProtectedLawful(c: PlanInput, inOrder: bool, s: State, k: nat, z: int)
    requires Lawful(c, inOrder, s) && k <= |s.layers|
    ensures var (t, z') := Protected(c.info, s, k, z);
            && Lawful(c, inOrder, t) && PreSources(t) == PreSources(s)
    decreases |s.layers| - k
  {
    hide Lawful;
    if k < |s.layers| {
      InRangeOf(c, inOrder, s, k);
      if c.info[s.layers[k]].isProtected {
        DedicateLawful(c, inOrder, s, k);
        ProtectedLawful(c, inOrder, Dedicate(s, k), k, s.layers[k]);
      } else {
        ProtectedLawful(c, inOrder, s, k + 1, z);
      }
    }
  }

  /** The stage takes all protected layers, and the z-order it reports is not below any of them. */
  lemma {:induction false} ProtectedMembers(c: PlanInput, inOrder: bool, s: State, k: nat, z: int, i: nat)
    requires Lawful(c, inOrder, s) && k <= |s.layers| && i < |c.info|
    requires i in s.layers[..k] ==> !c.info[i].isProtected
    requires AllOver(s.layers[k..], z)
    ensures var (t, z') := Protected(c.info, s, k, z);
            && (i in t.layers <==> i in s.layers && !c.info[i].isProtected)
            && (i in SourceOf(t.ded) ==> i in SourceOf(s.ded) || (i in s.layers && c.info[i].isProtected))
            && z <= z'
            && (i in s.layers && c.info[i].isProtected ==> i <= z')
    decreases |s.layers| - k
  {
    hide Lawful, SourceOf;
    if k < |s.layers| {
      InRangeOf(c, inOrder, s, k);
      var x := s.layers[k];
      assert s.layers[..k + 1] == s.layers[..k] + [x];
      TailOver(c, inOrder, s, k);
      if c.info[x].isProtected {
        DedicateLawful(c, inOrder, s, k);
        WithoutMember(c, inOrder, s, k);
        ProtectedMembers(c, inOrder, Dedicate(s, k), k, x, i);
      } else {
        ProtectedMembers(c, inOrder, s, k + 1, z, i);
      }
    } else {
      assert s.layers[..k] == s.layers;
    }
  }

  ghost predicate AllOver(s: seq<nat>, z: int) {
    forall j :: j in s ==> z < j
  }

  lemma {:induction false} TailOver(c: PlanInput, inOrder: bool, s: State, k: nat)
    requires Lawful(c, inOrder, s) && k < |s.layers|
    ensures AllOver(s.layers[k + 1..], s.layers[k])
    ensures s.layers[k..] == [s.layers[k]] + s.layers[k + 1..]
    ensures s.layers[k] in s.layers[k..] && forall j :: j in s.layers[k + 1..] ==> j in s.layers[k..]
  {
    assert s.layers[k..] == [s.layers[k]] + s.layers[k + 1..];
  }

  lemma {:induction false} NextAscends(up: seq<nat>, x: nat, tail: seq<nat>)
    requires Ascending(up) && AllBelow(up, [x] + tail) && AllOver(tail, x)
    ensures Ascending(up + [x]) && AllBelow(up + [x], tail) && AllBelow(up, tail)
  {
    assert ([x] + tail)[0] == x && x in [x] + tail && forall j :: j in tail ==> j in [x] + tail;
    assert forall k :: 0 <= k < |up| ==> up[k] in up;
  }

  /** Protected layers are dedicated from the bottom up, after the layers `low` that have a plane already. */
  lemma {:induction false} ProtectedAscends(c: PlanInput, inOrder: bool, s: State, k: nat, z: int, low: seq<nat>,
                                            up: seq<nat>) returns (r: seq<nat>)
    requires Lawful(c, inOrder, s) && k <= |s.layers|
    requires SourceOf(s.ded) == low + up && Ascending(up) && AllBelow(up, s.layers[k..])
    ensures SourceOf(Protected(c.info, s, k, z).0.ded) == low + r && Ascending(r)
    decreases |s.layers| - k
  {
    r := up;
    if k < |s.layers| {
      hide Lawful, SourceOf, Ascending;
      InRangeOf(c, inOrder, s, k);
      var x := s.layers[k];
      TailOver(c, inOrder, s, k);
      NextAscends(up, x, s.layers[k + 1..]);
      hide AllBelow, AllOver;
      if c.info[x].isProtected {
        DedicateLawful(c, inOrder, s, k);
        WithoutMember(c, inOrder, s, k);
        assert low + up + [x] == low + (up + [x]);
        r := ProtectedAscends(c, inOrder, Dedicate(s, k), k, x, low, if s.planes == [] then up else up + [x]);
      } else {
        r := ProtectedAscends(c, inOrder, s, k + 1, z, low, up);
      }
    }
  }

  lemma {:induction false} BelowLawful(c: PlanInput, inOrder: bool, s: State, k: nat, z: int)
    requires Lawful(c, inOrder, s) && k <= |s.layers|
    ensures Lawful(c, inOrder, BelowToPrecomp(s, k, z)) && BelowToPrecomp(s, k, z).ded == s.ded
    decreases |s.layers| - k
  {
    hide Lawful;
    if k < |s.layers| {
      if s.layers[k] > z {
        BelowLawful(c, inOrder, s, k + 1, z);
      } else {
        ToPrecompLawful(c, inOrder, s, k);
        BelowLawful(c, inOrder, ToPrecomp(s, k), k, z);
      }
    }
  }

  lemma {:induction false} BelowMembers(c: PlanInput, inOrder: bool, s: State, k: nat, z: int, i: nat)
    requires Lawful(c, inOrder, s) && k <= |s.layers|
    requires i in s.layers[..k] ==> i > z
    ensures var t := BelowToPrecomp(s, k, z);
            && (i in t.layers <==> i in s.layers && i > z)
            && (i in PreSources(t) ==> i in PreSources(s) || (i in s.layers && i <= z))
            && (i in PreSources(s) || (i in s.layers && i <= z && c.usable != []) ==> i in PreSources(t))
    decreases |s.layers| - k
  {
    hide Lawful;
    if k < |s.layers| {
      assert s.layers[..k + 1] == s.layers[..k] + [s.layers[k]];
      if s.layers[k] > z {
        BelowMembers(c, inOrder, s, k + 1, z, i);
      } else {
        ToPrecompLawful(c, inOrder, s, k);
        WithoutMember(c, inOrder, s, k);
        BelowMembers(c, inOrder, ToPrecomp(s, k), k, z, i);
      }
    } else {
      assert s.layers[..k] == s.layers;
    }
  }

  lemma {:induction false} AboveLawful(c: PlanInput, inOrder: bool, s: State, k: nat, z: nat)
    requires Lawful(c, inOrder, s) && k <= |s.layers| && s.pre != []
    ensures var t := AboveToPrecomp(s, k, z);
            Lawful(c, inOrder, t) && t.ded == s.ded && t.planes == s.planes && t.pre != []
    decreases |s.layers| - k
  {
    hide Lawful;
    if k < |s.layers| {
      if s.layers[k] < z {
        AboveLawful(c, inOrder, s, k + 1, z);
      } else {
        ToPrecompLawful(c, inOrder, s, k);
        AboveLawful(c, inOrder, ToPrecomp(s, k), k, z);
      }
    }
  }

  lemma {:induction false} AboveMembers(c: PlanInput, inOrder: bool, s: State, k: nat, z: nat, i: nat)
    requires Lawful(c, inOrder, s) && k <= |s.layers| && s.pre != []
    requires i in s.layers[..k] ==> i < z
    ensures var t := AboveToPrecomp(s, k, z);
            && (i in t.layers <==> i in s.layers && i < z)
            && (i in PreSources(t) <==> i in PreSources(s) || (i in s.layers && i >= z))
    decreases |s.layers| - k
  {
    hide Lawful;
    if k < |s.layers| {
      assert s.layers[..k + 1] == s.layers[..k] + [s.layers[k]];
      if s.layers[k] < z {
        AboveMembers(c, inOrder, s, k + 1, z, i);
      } else {
        ToPrecompLawful(c, inOrder, s, k);
        WithoutMember(c, inOrder, s, k);
        AboveMembers(c, inOrder, ToPrecomp(s, k), k, z, i);
      }
    } else {
      assert s.layers[..k] == s.layers;
    }
  }

  function Min(a: nat, b: nat): nat { if a < b then a else b }

  lemma {:induction false} GreedyFillLawful(c: PlanInput, inOrder: bool, s: State)
    requires Lawful(c, inOrder, s)
    ensures Lawful(c, inOrder, GreedyFill(s))
    decreases |s.layers|
  {
    hide Lawful;
    if s.layers != [] && s.planes != [] {
      DedicateLawful(c, inOrder, s, 0);
      GreedyFillLawful(c, inOrder, Dedicate(s, 0));
    }
  }

  /** The greedy stage gives the lowest layers the lowest planes, as many as there are. */
  lemma {:induction false} GreedyFillSplits(s: State)
    ensures var t := GreedyFill(s);
            var m := Min(|s.layers|, |s.planes|);
            && t.pre == s.pre && t.gone == s.gone
            && SourceOf(t.ded) == SourceOf(s.ded) + s.layers[..m]
            && t.layers == s.layers[m..] && t.planes == s.planes[m..]
    decreases |s.layers|
  {
    if s.layers != [] && s.planes != [] {
      var u := Dedicate(s, 0);
      Appended(s.ded, CompositionPlane(LayerPlane, s.planes[0], [s.layers[0]]), s.layers[0]);
      hide SourceOf;
      GreedyFillSplits(u);
      var n := Min(|u.layers|, |u.planes|);
      assert u.layers == s.layers[1..];
      FirstThenRest(SourceOf(s.ded), s.layers, n);
      RestOfRest(s.layers, n);
      RestOfRest(s.planes, n);
    } else {
      assert s.layers[..0] == [];
    }
  }

  lemma {:induction false} FirstThenRest(low: seq<nat>, s: seq<nat>, n: nat)
    requires s != [] && n < |s|
    ensures low + [s[0]] + s[1..][..n] == low + s[..n + 1]
  {
    assert [s[0]] + s[1..][..n] == s[..n + 1];
  }

  lemma {:induction false} RestOfRest<T>(s: seq<T>, n: nat)
    requires s != [] && n < |s|
    ensures s[1..][n..] == s[n + 1..]
  {
  }

  lemma {:induction false} RestLaw(c: PlanInput, inOrder: bool, s: State)
    requires Lawful(c, inOrder, s) && s.pre != []
    ensures var t := RestToPrecomp(s);
            && Lawful(c, inOrder, t) && t.ded == s.ded && t.planes == s.planes && t.gone == s.gone
            && t.layers == [] && PreSources(t) == PreSources(s) + s.layers
    decreases |s.layers|
  {
    hide Lawful;
    if s.layers != [] {
      var u := ToPrecomp(s, 0);
      ToPrecompLawful(c, inOrder, s, 0);
      assert u.layers == s.layers[1..];
      RestLaw(c, inOrder, u);
      assert PreSources(s) + [s.layers[0]] + u.layers == PreSources(s) + s.layers;
    } else {
      assert PreSources(s) + s.layers == PreSources(s);
    }
  }
}
