/** The planner as the code runs it: stages that update the composition, the layer map and the plane list in place. */
module Planner {
  import opened Geometry
  import opened Layers
  import opened CompositionTypes
  import opened PlanStages
  import opened PlanLaws
  import opened PlanTheorems
  import opened PlanPlaces

  /** The position of the precomposition plane, or the length when there is none. */
  function FindPrecomp(composition: seq<CompositionPlane>): (k: nat)
    ensures k <= |composition|
    ensures k < |composition| ==> composition[k].kind == Precomp
    ensures forall j :: 0 <= j < k ==> composition[j].kind != Precomp
  {
    if composition == [] || composition[0].kind == Precomp then 0 else 1 + FindPrecomp(composition[1..])
  }

  lemma {:induction false} PrecompIsFirst(below: seq<CompositionPlane>, rest: seq<CompositionPlane>)
    requires forall k :: 0 <= k < |below| ==> below[k].kind != Precomp
    requires rest == [] || rest[0].kind == Precomp
    ensures FindPrecomp(below + rest) == |below|
  {
    if below != [] {
      assert (below + rest)[1..] == below[1..] + rest;
      PrecompIsFirst(below[1..], rest);
    } else {
      assert below + rest == rest;
    }
  }

  lemma {:induction false} PlacedIsErased(s: State, k: nat)
    requires k < |s.layers|
    ensures PlaceRotated(s, k).layers == Without(s.layers, k)
  {
  }

  class Board {
    const info: seq<Layer>
    var composition: seq<CompositionPlane>
    var layers: seq<nat>
    var planes: seq<HwPlane>
    ghost var gone: seq<nat>

    ghost function View(): State
      reads this
    {
      State(composition[..FindPrecomp(composition)], composition[FindPrecomp(composition)..], layers, planes, gone)
    }

    ghost predicate Valid()
      reads this
    {
      |composition| <= FindPrecomp(composition) + 1 && InRange(info, layers)
    }

    lemma {:induction false} ViewIs(ded: seq<CompositionPlane>, pre: seq<CompositionPlane>)
      requires forall k :: 0 <= k < |ded| ==> ded[k].kind != Precomp
      requires composition == ded + pre && |pre| <= 1 && (pre == [] || pre[0].kind == Precomp)
      ensures View() == State(ded, pre, layers, planes, gone)
      ensures InRange(info, layers) ==> Valid()
    {
      PrecompIsFirst(ded, pre);
    }

    /** Reserves the precomposition at the highest z-order when the layers outnumber the planes. */
    constructor (info: seq<Layer>, layers: seq<nat>, usable: seq<HwPlane>)
      requires InRange(info, layers)
      ensures this.info == info && Valid() && View() == InitialState(layers, usable)
    {
      this.info, this.layers, this.gone := info, layers, [];
      if |layers| > |usable| && usable != [] {
        planes := usable[..|usable| - 1];
        composition := [CompositionPlane(Precomp, usable[|usable| - 1], [])];
      } else {
        planes, composition := usable, [];
      }
    }

    /** Takes the lowest plane for the layer at position `k`, right before the precomposition. */
    method Emplace(k: nat) returns (ok: bool)
      requires Valid() && k < |layers|
      modifies this`composition, this`planes
      ensures ok == (old(planes) != []) && Valid()
      ensures ok ==>
                var was, taken := old(View()), CompositionPlane(LayerPlane, old(planes)[0], [layers[k]]);
                View() == was.(ded := was.ded + [taken], planes := old(planes)[1..])
      ensures !ok ==> View() == old(View())
    {
      if planes == [] {
        return false;
      }
      var plane := planes[0];
      planes := planes[1..];
      var at := FindPrecomp(composition);
      ghost var pre := composition[at..];
      var entry := CompositionPlane(LayerPlane, plane, [layers[k]]);
      composition := composition[..at] + [entry] + composition[at..];
      ViewIs(old(View()).ded + [entry], pre);
      return true;
    }

    method Erase(k: nat)
      requires Valid() && k < |layers|
      modifies this`layers
      ensures Valid() && View() == old(View()).(layers := Without(old(layers), k))
    {
      layers := layers[..k] + layers[k + 1..];
      assert layers == Without(old(layers), k);
    }

    /** Gives the layer at position `k` to the precomposition, queueing one on the highest plane left, and erases it. */
    method MoveToPrecomp(k: nat)
      requires Valid() && k < |layers|
      modifies this
      ensures Valid() && View() == ToPrecomp(old(View()), k)
    {
      ghost var ded := View().ded;
      var at := FindPrecomp(composition);
      if at < |composition| {
        var grown := composition[at].(sources := composition[at].sources + [layers[k]]);
        composition := composition[at := grown];
        assert composition == ded + [grown];
        ViewIs(ded, [grown]);
      } else if planes != [] {
        var queued := CompositionPlane(Precomp, planes[|planes| - 1], [layers[k]]);
        planes := planes[..|planes| - 1];
        composition := composition + [queued];
        ViewIs(ded, [queued]);
      } else {
        gone := gone + [layers[k]];
      }
      Erase(k);
    }

    method ProvisionNvLimits()
      requires Valid()
      modifies this
      ensures Valid() && View() == StageNvLimits(info, old(View()))
    {
      var k := 0;
      while k < |layers|
        invariant k <= |layers| && Valid()
        invariant NvLimits(info, View(), k) == NvLimits(info, old(View()), 0)
        decreases |layers| - k
      {
        assert layers[k] in layers;
        if CheckLayer(layers[k], info[layers[k]]) {
          k := k + 1;
          continue;
        }
        if info[layers[k]].isProtected {
          gone := gone + [layers[k]];
          Erase(k);
          continue;
        }
        MoveToPrecomp(k);
      }
    }

    /** Layers below protected content join the precomposition, which gets a hole punched through it. */
    method MoveBelow(zorder: int)
      requires Valid()
      modifies this
      ensures Valid() && View() == BelowToPrecomp(old(View()), 0, zorder)
    {
      var k := 0;
      while k < |layers|
        invariant k <= |layers| && Valid()
        invariant BelowToPrecomp(View(), k, zorder) == BelowToPrecomp(old(View()), 0, zorder)
        decreases |layers| - k
      {
        if layers[k] > zorder {
          k := k + 1;
          continue;
        }
        MoveToPrecomp(k);
      }
    }

    /** Puts the layer at position `k` on a primary plane at the bottom of the composition, or drops it. */
    method EmplaceAtBottom(k: nat) returns (found: bool)
      requires Valid() && k < |layers|
      modifies this
      ensures Valid() && View() == PlaceRotated(old(View()), k)
              && (found <==> FirstPrimary(old(planes)) < |old(planes)|)
    {
      ghost var ded, pre := View().ded, View().pre;
      var j := FirstPrimary(planes);
      found := j < |planes|;
      if found {
        var entry := CompositionPlane(LayerPlane, planes[j], [layers[k]]);
        composition := [entry] + composition;
        planes := planes[..j] + planes[j + 1..];
        assert composition == ([entry] + ded) + pre;
        ViewIs([entry] + ded, pre);
      } else {
        gone := gone + [layers[k]];
      }
      Erase(k);
    }

    method ProvisionProtectedRotated()
      requires Valid()
      modifies this
      ensures Valid() && View() == StageProtectedRotated(info, old(View()))
    {
      hide PlaceRotated, FirstPrimary;
      var zorder: int := -1;
      var k := 0;
      while k < |layers|
        invariant k <= |layers| && Valid()
        invariant Rotated(info, View(), k, zorder) == Rotated(info, old(View()), 0, -1)
        decreases |layers| - k
      {
        assert layers[k] in layers;
        if !info[layers[k]].isProtected || info[layers[k]].transform == {} {
          k := k + 1;
          continue;
        }
        var layer := layers[k];
        PlacedIsErased(View(), k);
        var found := EmplaceAtBottom(k);
        zorder := if found then layer else zorder;
      }
      if zorder == -1 {
        return;
      }
      MoveBelow(zorder);
    }

    method ProvisionProtected()
      requires Valid()
      modifies this
      ensures Valid() && View() == StageProtected(info, old(View()))
    {
      var zorder: int := -1;
      var k := 0;
      while k < |layers|
        invariant k <= |layers| && Valid()
        invariant Protected(info, View(), k, zorder) == Protected(info, old(View()), 0, -1)
        decreases |layers| - k
      {
        assert layers[k] in layers;
        if !info[layers[k]].isProtected {
          k := k + 1;
          continue;
        }
        ghost var before := View();
        var ok := Emplace(k);
        if !ok {
          gone := gone + [layers[k]];
        }
        zorder := layers[k];
        Erase(k);
        assert View() == Dedicate(before, k);
      }
      if zorder == -1 {
        return;
      }
      MoveBelow(zorder);
    }

    /** Layers on top of any precomposition layer join it, since the precomposition is above all dedicated planes. */
    method ProvisionPrecomp()
      requires Valid()
      modifies this
      ensures Valid() && View() == StagePrecomp(old(View()))
    {
      var at := FindPrecomp(composition);
      if at == |composition| || composition[at].sources == [] {
        return;
      }
      var zorder := Lowest(composition[at].sources);
      var k := 0;
      while k < |layers|
        invariant k <= |layers| && Valid() && View().pre != []
        invariant AboveToPrecomp(View(), k, zorder) == AboveToPrecomp(old(View()), 0, zorder)
        decreases |layers| - k
      {
        if layers[k] < zorder {
          k := k + 1;
          continue;
        }
        MoveToPrecomp(k);
      }
    }

    /** Fills the planes left, first come first served, and precomposes the rest. */
    method ProvisionGreedy()
      requires Valid()
      modifies this
      ensures Valid() && View() == StageGreedy(old(View()))
    {
      while layers != []
        invariant Valid() && GreedyFill(View()) == GreedyFill(old(View()))
        decreases |layers|
      {
        ghost var before := View();
        var ok := Emplace(0);
        if !ok {
          break;
        }
        Erase(0);
        assert View() == Dedicate(before, 0);
      }
      assert View() == GreedyFill(old(View()));
      if FindPrecomp(composition) < |composition| {
        while layers != []
          invariant Valid() && View().pre != [] && RestToPrecomp(View()) == RestToPrecomp(GreedyFill(old(View())))
          decreases |layers|
        {
          MoveToPrecomp(0);
        }
      }
    }

    /** The stages, in the order the planner is built with. */
    method RunStages()
      requires Valid()
      modifies this
      ensures Valid()
      ensures var limited := StageProtectedRotated(info, StageNvLimits(info, old(View())));
              View() == StageGreedy(StagePrecomp(StageProtected(info, limited)))
    {
      hide StageNvLimits, StageProtectedRotated, StageProtected, StagePrecomp, StageGreedy, Valid, View;
      ValidInRange();
      ProvisionNvLimits();
      ProvisionProtectedRotated();
      ProvisionProtected();
      ProvisionPrecomp();
      ProvisionGreedy();
    }

    lemma {:induction false} ValidInRange()
      requires Valid()
      ensures InRange(info, View().layers)
    {
    }
  }

  /** The planes that can be scanned out by `crtc`. */
  function Supporting(planes: seq<HwPlane>, crtc: nat): (s: seq<HwPlane>)
    ensures forall p :: p in s <==> p in planes && crtc in p.crtcs
  {
    if planes == [] then []
    else (if crtc in planes[0].crtcs then [planes[0]] else []) + Supporting(planes[1..], crtc)
  }

  // ----- the order of the planes -----

  /** `at` are the places of all planes of the pool that support `crtc`. */
  ghost predicate Covering(pool: seq<HwPlane>, crtc: nat, at: seq<nat>) {
    forall p :: 0 <= p < |pool| ==> (p in at <==> crtc in pool[p].crtcs)
  }

  /** `usable` are all planes of the pool that support `crtc`, in the order of the pool. */
  ghost predicate AllInOrder(pool: seq<HwPlane>, crtc: nat, usable: seq<HwPlane>) {
    exists at :: AtPlaces(pool, usable, at) && Covering(pool, crtc, at)
  }

  /** No plane above `plane` in the pool supports `crtc`. */
  ghost predicate HighestOf(pool: seq<HwPlane>, crtc: nat, plane: HwPlane) {
    exists p: nat :: p < |pool| && pool[p] == plane && crtc in plane.crtcs
                     && forall q :: p < q < |pool| ==> crtc !in pool[q].crtcs
  }

  function Further(at: seq<nat>, n: nat): (r: seq<nat>)
    ensures |r| == |at| && forall k :: 0 <= k < |at| ==> r[k] == n + at[k]
  {
    seq(|at|, k requires 0 <= k < |at| => n + at[k])
  }

  lemma {:induction false} InFurther(at: seq<nat>, n: nat, p: nat)
    ensures p in Further(at, n) <==> p >= n && p - n in at
  {
    if p >= n && p - n in at {
      var k :| 0 <= k < |at| && at[k] == p - n;
      assert Further(at, n)[k] == p;
    }
  }

  lemma {:induction false} PlacesJoined(low: seq<HwPlane>, a: seq<HwPlane>, at: seq<nat>, high: seq<HwPlane>,
                                        b: seq<HwPlane>, at': seq<nat>)
    requires AtPlaces(low, a, at) && AtPlaces(high, b, at')
    ensures AtPlaces(low + high, a + b, at + Further(at', |low|))
  {
  }

  lemma {:induction false} CoveringJoined(low: seq<HwPlane>, at: seq<nat>, high: seq<HwPlane>, at': seq<nat>, crtc: nat)
    requires Covering(low, crtc, at) && Covering(high, crtc, at') && forall p :: p in at ==> p < |low|
    ensures Covering(low + high, crtc, at + Further(at', |low|))
  {
    var pool, all := low + high, at + Further(at', |low|);
    forall p: nat | p < |pool|
      ensures p in all <==> crtc in pool[p].crtcs
    {
      InFurther(at', |low|, p);
      assert p in all <==> p in at || p in Further(at', |low|);
    }
  }

  lemma {:induction false} InOrderJoined(low: seq<HwPlane>, a: seq<HwPlane>, high: seq<HwPlane>, b: seq<HwPlane>,
                                         crtc: nat)
    requires AllInOrder(low, crtc, a) && AllInOrder(high, crtc, b)
    ensures AllInOrder(low + high, crtc, a + b)
  {
    var at :| AtPlaces(low, a, at) && Covering(low, crtc, at);
    var at' :| AtPlaces(high, b, at') && Covering(high, crtc, at');
    PlacesJoined(low, a, at, high, b, at');
    CoveringJoined(low, at, high, at', crtc);
    hide AtPlaces, Covering;
    assert Covering(low + high, crtc, at + Further(at', |low|));
  }

  lemma {:induction false} SupportingInOrder(planes: seq<HwPlane>, crtc: nat)
    ensures AllInOrder(planes, crtc, Supporting(planes, crtc))
  {
    if planes == [] {
      assert AtPlaces([], [], []) && Covering([], crtc, []);
    } else {
      SupportingInOrder(planes[1..], crtc);
      OneInOrder(planes[0], crtc);
      InOrderJoined([planes[0]], if crtc in planes[0].crtcs then [planes[0]] else [],
                    planes[1..], Supporting(planes[1..], crtc), crtc);
      assert [planes[0]] + planes[1..] == planes;
    }
  }

  lemma {:induction false} OneInOrder(plane: HwPlane, crtc: nat)
    ensures AllInOrder([plane], crtc, if crtc in plane.crtcs then [plane] else [])
  {
    var at: seq<nat> := if crtc in plane.crtcs then [0] else [];
    assert AtPlaces([plane], if crtc in plane.crtcs then [plane] else [], at) && Covering([plane], crtc, at);
  }

  lemma {:induction false} PoolsInOrder(low: seq<HwPlane>, high: seq<HwPlane>, crtc: nat)
    ensures AllInOrder(low + high, crtc, Supporting(low, crtc) + Supporting(high, crtc))
  {
    hide AllInOrder;
    SupportingInOrder(low, crtc);
    SupportingInOrder(high, crtc);
    InOrderJoined(low, Supporting(low, crtc), high, Supporting(high, crtc), crtc);
  }

  lemma {:induction false} LastIsHighest(pool: seq<HwPlane>, crtc: nat, usable: seq<HwPlane>)
    requires AllInOrder(pool, crtc, usable) && usable != []
    ensures HighestOf(pool, crtc, usable[|usable| - 1])
  {
    var at :| AtPlaces(pool, usable, at) && Covering(pool, crtc, at);
    LastOfAll(pool, crtc, usable, at);
  }

  lemma {:induction false} LastOfAll(pool: seq<HwPlane>, crtc: nat, usable: seq<HwPlane>, at: seq<nat>)
    requires AtPlaces(pool, usable, at) && Covering(pool, crtc, at) && usable != []
    ensures HighestOf(pool, crtc, usable[|usable| - 1])
  {
    var p := at[|at| - 1];
    assert p in at && pool[p] == usable[|usable| - 1];
    forall q | p < q < |pool|
      ensures crtc !in pool[q].crtcs
    {
      assert q !in at by {
        assert forall k :: 0 <= k < |at| ==> at[k] <= p;
      }
    }
  }

  /**
   * The planes of a composition without rotated protected layers ascend in the pool, and the squash framebuffer is on
   * the highest plane that there is.
   */
  ghost predicate PlanesAscend(pool: seq<HwPlane>, crtc: nat, useSquash: bool, composition: seq<CompositionPlane>) {
    && InPoolOrder(pool, HardwareOf(composition))
    && (useSquash ==>
          && composition != [] && composition[|composition| - 1].kind == Squash
          && HighestOf(pool, crtc, composition[|composition| - 1].plane))
  }

  lemma {:induction false} UnrotatedAscend(c: PlanInput, pool: seq<HwPlane>, crtc: nat, usable: seq<HwPlane>,
                                           useSquash: bool)
    requires Given(c) && usable != [] && AllInOrder(pool, crtc, usable) && c.usable == ForLayers(usable, useSquash)
    requires forall i :: i in c.all ==> !(c.info[i].isProtected && c.info[i].transform != {})
    ensures var t := Provision(c.info, c.all, c.usable);
            PlanesAscend(pool, crtc, useSquash, t.ded + t.pre + SquashPart(usable, useSquash))
  {
    var t := Provision(c.info, c.all, c.usable);
    PlanOrderUnrotated(c);
    hide Provision, Given, Ascending, HardwareOf, SourceOf, PreSources, PlanesAscend, AllInOrder;
    PlanAscends(t.ded, t.pre, t.planes, pool, crtc, usable, useSquash);
  }

  lemma {:induction false} PlanAscends(ded: seq<CompositionPlane>, pre: seq<CompositionPlane>, left: seq<HwPlane>,
                                       pool: seq<HwPlane>, crtc: nat, usable: seq<HwPlane>, useSquash: bool)
    requires usable != [] && AllInOrder(pool, crtc, usable)
    requires HardwareOf(ded) + left + HardwareOf(pre) == ForLayers(usable, useSquash)
    ensures PlanesAscend(pool, crtc, useSquash, ded + pre + SquashPart(usable, useSquash))
  {
    var squash := SquashPart(usable, useSquash);
    LastIsHighest(pool, crtc, usable);
    assert usable == ForLayers(usable, useSquash) + HardwareOf(squash);
    HardwareJoined(ded, pre, squash);
    hide AtPlaces, InPoolOrder, AllInOrder, HighestOf, HardwareOf;
    Regrouped(HardwareOf(ded), left, HardwareOf(pre), HardwareOf(squash));
    UsedAscend(pool, crtc, usable, HardwareOf(ded), left, HardwareOf(pre) + HardwareOf(squash));
  }

  lemma {:induction false} Regrouped<T>(a: seq<T>, b: seq<T>, c: seq<T>, d: seq<T>)
    ensures a + b + c + d == a + b + (c + d)
  {
  }

  lemma {:induction false} HardwareJoined(a: seq<CompositionPlane>, b: seq<CompositionPlane>, c: seq<CompositionPlane>)
    ensures HardwareOf(a + b + c) == HardwareOf(a) + (HardwareOf(b) + HardwareOf(c))
  {
  }

  lemma {:induction false} UsedAscend(pool: seq<HwPlane>, crtc: nat, usable: seq<HwPlane>, low: seq<HwPlane>,
                                      middle: seq<HwPlane>, high: seq<HwPlane>)
    requires AllInOrder(pool, crtc, usable) && usable == low + middle + high
    ensures InPoolOrder(pool, low + high)
  {
    hide AtPlaces;
    MiddleLeftOut(low, middle, high);
    WithinPool(pool, usable, low + high);
  }

  datatype PlanResult = NoDevice | Planned(composition: seq<CompositionPlane>)

  /** The planes left for layers once the highest one is reserved for the squash framebuffer. */
  function ForLayers(usable: seq<HwPlane>, useSquash: bool): seq<HwPlane> {
    if useSquash && usable != [] then usable[..|usable| - 1] else usable
  }

  function SquashPart(usable: seq<HwPlane>, useSquash: bool): seq<CompositionPlane> {
    if useSquash && usable != [] then [CompositionPlane(Squash, usable[|usable| - 1], [])] else []
  }

  method ProvisionLayers(info: seq<Layer>, layers: seq<nat>, planes: seq<HwPlane>)
    returns (composition: seq<CompositionPlane>)
    requires InRange(info, layers)
    ensures var t := Provision(info, layers, planes);
            composition == t.ded + t.pre
  {
    var board := new Board(info, layers, planes);
    board.RunStages();
    composition := board.composition;
    assert composition == board.View().ded + board.View().pre;
  }

  method ProvisionPlanes(info: seq<Layer>, layers: seq<nat>, useSquash: bool, crtc: nat,
                         primaryPlanes: seq<HwPlane>, overlayPlanes: seq<HwPlane>) returns (result: PlanResult)
    requires InRange(info, layers)
    ensures var usable := Supporting(primaryPlanes, crtc) + Supporting(overlayPlanes, crtc);
            && (result.NoDevice? <==> usable == [])
            && (usable != [] ==>
                  var t := Provision(info, layers, ForLayers(usable, useSquash));
                  result.composition == t.ded + t.pre + SquashPart(usable, useSquash))
    ensures result.NoDevice? <==> forall p :: p in primaryPlanes + overlayPlanes ==> crtc !in p.crtcs
    ensures result.Planned? && Ascending(layers)
            && (forall i :: i in layers ==> !(info[i].isProtected && info[i].transform != {})) ==>
              PlanesAscend(primaryPlanes + overlayPlanes, crtc, useSquash, result.composition)
  {
    var planes := Supporting(primaryPlanes, crtc) + Supporting(overlayPlanes, crtc);
    ghost var usable := planes;
    PoolsInOrder(primaryPlanes, overlayPlanes, crtc);
    if planes == [] {
      return NoDevice;
    }
    assert planes[0] in planes;
    var squashPlane: seq<HwPlane> := [];
    if useSquash {
      squashPlane := [planes[|planes| - 1]];
      planes := planes[..|planes| - 1];
    }
    var composition := ProvisionLayers(info, layers, planes);
    hide Provision, Supporting;
    assert planes == ForLayers(usable, useSquash);
    if squashPlane != [] {
      composition := composition + [CompositionPlane(Squash, squashPlane[0], [])];
    }
    if Ascending(layers) && forall i :: i in layers ==> !(info[i].isProtected && info[i].transform != {}) {
      UnrotatedAscend(PlanInput(info, layers, ForLayers(usable, useSquash)), primaryPlanes + overlayPlanes, crtc,
                      usable, useSquash);
    }
    return Planned(composition);
  }
}
