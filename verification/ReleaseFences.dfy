/** Which stage of a frame reads a layer last, and the timeline points at which its buffer is released. */
module ReleaseFences {
  import opened Layers
  import opened CompositionTypes

  ghost predicate ReadBy(regions: seq<CompositionRegion>, i: nat) {
    exists k :: 0 <= k < |regions| && i in regions[k].sources
  }

  ghost predicate OnPlane(planes: seq<CompositionPlane>, i: nat) {
    exists k :: 0 <= k < |planes| && planes[k].kind == LayerPlane && i in planes[k].sources
  }

  /** The timeline of one frame; a layer is released once the current point reaches its fence. */
  class Timeline {
    var last: nat
    var current: nat
    var squashDone: nat
    var preCompDone: nat
    var fences: map<nat, nat>

    constructor ()
      ensures last == current == squashDone == preCompDone == 0 && fences == map[]
    {
      last, current, squashDone, preCompDone, fences := 0, 0, 0, 0, map[];
    }

    ghost predicate Released(i: nat)
      reads this
    {
      i in fences && fences[i] <= current
    }

    ghost predicate Staged()
      reads this
    {
      current <= last && squashDone <= preCompDone <= last
    }

    /** Every layer is released only after its last reader: squash, then precomposition, then the display itself. */
    ghost predicate FencesRight(layers: seq<Layer>, squash: seq<CompositionRegion>, preComp: seq<CompositionRegion>,
                                planes: seq<CompositionPlane>)
      reads this
    {
      && Staged()
      && forall i: nat :: i < |layers| && layers[i].wantsFence ==>
           && (OnPlane(planes, i) ==> i in fences && preCompDone < fences[i] <= last)
           && (!OnPlane(planes, i) && ReadBy(preComp, i) ==> i in fences && squashDone < fences[i] <= preCompDone)
           && (!OnPlane(planes, i) && !ReadBy(preComp, i) && ReadBy(squash, i) ==>
                 i in fences && fences[i] <= squashDone)
           && (!OnPlane(planes, i) && !ReadBy(preComp, i) && !ReadBy(squash, i) ==> i !in fences)
    }

    /**
     * What is left when the kernel has refused a fence: no layer
     * is released, and only layers that are read have a fence.
     */
    ghost predicate NoneReleased(layers: seq<Layer>, squash: seq<CompositionRegion>, preComp: seq<CompositionRegion>,
                                 planes: seq<CompositionPlane>)
      reads this
    {
      forall i: nat :: i in fences ==>
        && i < |layers| && layers[i].wantsFence && current < fences[i] <= last
        && (ReadBy(squash, i) || ReadBy(preComp, i) || OnPlane(planes, i))
    }

    /**
     * Creates the next fence for every layer of `who` that wants one, in whatever order the set is walked, until the
     * kernel refuses one; that layer is left without a fence.
     */
    method AssignFences(layers: seq<Layer>, who: set<nat>) returns (ok: bool)
      requires forall i :: i in who ==> i < |layers|
      modifies this`last, this`fences
      ensures old(last) <= last && (ok ==> last == old(last) + |Wanting(layers, who)|)
      ensures ok ==> Assigned(old(fences), old(last), fences, last, Wanting(layers, who))
      ensures !ok ==> SomeAssigned(old(fences), old(last), fences, last, Wanting(layers, who))
    {
      var todo := who;
      ghost var done: set<nat> := {};
      while todo != {}
        invariant todo <= who && done == Wanting(layers, who - todo)
        invariant last == old(last) + |done| && Assigned(old(fences), old(last), fences, last, done)
        decreases |todo|
      {
        var i :| i in todo;
        todo := todo - {i};
        if !layers[i].wantsFence {
          assert Wanting(layers, who - todo) == done;
          continue;
        }
        last := last + 1;
        var created: bool := *;
        if !created {
          fences := fences - {i};
          return false;
        }
        fences := fences[i := last];
        assert i !in done && Wanting(layers, who - todo) == done + {i};
        done := done + {i};
      }
      assert who - todo == who;
      ok := true;
    }

    method CreateAndAssignReleaseFences(layers: seq<Layer>, squash: seq<CompositionRegion>,
                                        preComp: seq<CompositionRegion>, planes: seq<CompositionPlane>)
      returns (ok: bool)
      requires last == current == squashDone == preCompDone == 0 && fences == map[]
      requires forall i: nat :: ReadBy(squash, i) || ReadBy(preComp, i) || OnPlane(planes, i) ==> i < |layers|
      modifies this
      ensures current == 0
      ensures ok ==> FencesRight(layers, squash, preComp, planes)
      ensures !ok ==> NoneReleased(layers, squash, preComp, planes)
    {
      hide ReadBy, OnPlane;
      var squashLayers, preCompLayers, compLayers := LastReaders(squash, preComp, planes);
      ok := AssignFences(layers, squashLayers);
      if !ok {
        return;
      }
      squashDone := last;
      ok := AssignFences(layers, preCompLayers);
      if !ok {
        return;
      }
      preCompDone := last;
      ok := AssignFences(layers, compLayers);
    }

    // ----- signalling -----

    /** `succeeds` is what the kernel answers; the point only moves forward. */
    method IncreaseTimelineToPoint(point: nat, succeeds: bool)
      modifies this`current
      ensures current == if succeeds && point > old(current) then point else old(current)
    {
      if point <= current {
        return;
      }
      if succeeds {
        current := point;
      }
    }

    /** Signalling the end of squashing releases no layer that the precomposition or a plane still reads. */
    method SignalSquashDone(succeeds: bool, ghost layers: seq<Layer>, ghost squash: seq<CompositionRegion>,
                            ghost preComp: seq<CompositionRegion>, ghost planes: seq<CompositionPlane>)
      requires FencesRight(layers, squash, preComp, planes)
      modifies this`current
      ensures FencesRight(layers, squash, preComp, planes) && current >= old(current)
      ensures succeeds ==> current >= squashDone
      ensures forall i: nat :: i < |layers| && layers[i].wantsFence && Released(i) && !old(Released(i)) ==>
                ReadBy(squash, i) && !ReadBy(preComp, i) && !OnPlane(planes, i)
    {
      IncreaseTimelineToPoint(squashDone, succeeds);
    }

    /** Signalling the end of the precomposition releases no layer that is still on a plane. */
    method SignalPreCompDone(succeeds: bool, ghost layers: seq<Layer>, ghost squash: seq<CompositionRegion>,
                             ghost preComp: seq<CompositionRegion>, ghost planes: seq<CompositionPlane>)
      requires FencesRight(layers, squash, preComp, planes)
      modifies this`current
      ensures FencesRight(layers, squash, preComp, planes) && current >= old(current)
      ensures succeeds ==> current >= preCompDone
      ensures forall i: nat :: i < |layers| && layers[i].wantsFence && Released(i) && !old(Released(i)) ==>
                (ReadBy(squash, i) || ReadBy(preComp, i)) && !OnPlane(planes, i)
    {
      IncreaseTimelineToPoint(preCompDone, succeeds);
    }

    /** The end of the frame releases every layer. */
    method SignalCompositionDone(succeeds: bool, ghost layers: seq<Layer>, ghost squash: seq<CompositionRegion>,
                                 ghost preComp: seq<CompositionRegion>, ghost planes: seq<CompositionPlane>)
      requires FencesRight(layers, squash, preComp, planes)
      modifies this`current
      ensures FencesRight(layers, squash, preComp, planes) && current >= old(current)
      ensures succeeds ==> forall i: nat :: i < |layers| && layers[i].wantsFence ==>
                (Released(i) <==> ReadBy(squash, i) || ReadBy(preComp, i) || OnPlane(planes, i))
    {
      IncreaseTimelineToPoint(last, succeeds);
    }
  }

  /** The layers of `who` have new fences up to `last`, the others what they had. */
  ghost predicate Assigned(before: map<nat, nat>, first: nat, fences: map<nat, nat>, last: nat, who: set<nat>) {
    && (forall i :: i in who ==> i in fences && first < fences[i] <= last)
    && (forall i :: i !in who ==> (i in fences <==> i in before) && (i in fences ==> fences[i] == before[i]))
  }

  /** Every fence is an old one, or a new one of a layer of `who`. */
  ghost predicate SomeAssigned(before: map<nat, nat>, first: nat, fences: map<nat, nat>, last: nat, who: set<nat>) {
    forall i :: i in fences ==> (i in before && fences[i] == before[i]) || (i in who && first < fences[i] <= last)
  }

  function Wanting(layers: seq<Layer>, who: set<nat>): set<nat>
    requires forall i :: i in who ==> i < |layers|
  {
    set i | i in who && layers[i].wantsFence
  }

  /**
   * The layers of squash that no precomposition reads, those of
   * the precomposition that have no plane, and those that do.
   */
  method LastReaders(squash: seq<CompositionRegion>, preComp: seq<CompositionRegion>, planes: seq<CompositionPlane>)
    returns (squashLayers: set<nat>, preCompLayers: set<nat>, compLayers: set<nat>)
    ensures forall i: nat :: i in squashLayers <==> ReadBy(squash, i) && !ReadBy(preComp, i)
    ensures forall i: nat :: i in preCompLayers <==> ReadBy(preComp, i) && !OnPlane(planes, i)
    ensures forall i: nat :: i in compLayers <==> OnPlane(planes, i)
  {
    squashLayers, preCompLayers, compLayers := {}, {}, {};
    for k := 0 to |squash|
      invariant forall i: nat :: i in squashLayers <==> ReadBy(squash[..k], i)
    {
      squashLayers := squashLayers + (set i | i in squash[k].sources);
      ReadByOneMore(squash, k);
    }
    assert squash[..|squash|] == squash;
    for k := 0 to |preComp|
      invariant forall i: nat :: i in preCompLayers <==> ReadBy(preComp[..k], i)
      invariant forall i: nat :: i in squashLayers <==> ReadBy(squash, i) && !ReadBy(preComp[..k], i)
    {
      preCompLayers := preCompLayers + (set i | i in preComp[k].sources);
      squashLayers := squashLayers - (set i | i in preComp[k].sources);
      ReadByOneMore(preComp, k);
    }
    assert preComp[..|preComp|] == preComp;
    for k := 0 to |planes|
      invariant forall i: nat :: i in compLayers <==> OnPlane(planes[..k], i)
      invariant forall i: nat :: i in preCompLayers <==> ReadBy(preComp, i) && !OnPlane(planes[..k], i)
    {
      if planes[k].kind == LayerPlane {
        compLayers := compLayers + (set i | i in planes[k].sources);
        preCompLayers := preCompLayers - (set i | i in planes[k].sources);
      }
      OnPlaneOneMore(planes, k);
    }
    assert planes[..|planes|] == planes;
  }

  lemma {:induction false} ReadByOneMore(regions: seq<CompositionRegion>, k: nat)
    requires k < |regions|
    ensures forall i: nat :: ReadBy(regions[..k + 1], i) <==> ReadBy(regions[..k], i) || i in regions[k].sources
  {
    assert regions[..k + 1] == regions[..k] + [regions[k]];
    forall i: nat | ReadBy(regions[..k], i) || i in regions[k].sources
      ensures ReadBy(regions[..k + 1], i)
    {
      if i in regions[k].sources {
        assert regions[..k + 1][k] == regions[k];
      } else {
        var j :| 0 <= j < k && i in regions[..k][j].sources;
        assert regions[..k + 1][j] == regions[..k][j];
      }
    }
  }

  lemma {:induction false} OnPlaneOneMore(planes: seq<CompositionPlane>, k: nat)
    requires k < |planes|
    ensures forall i: nat :: OnPlane(planes[..k + 1], i) <==>
              OnPlane(planes[..k], i) || (planes[k].kind == LayerPlane && i in planes[k].sources)
  {
    forall i: nat | OnPlane(planes[..k], i) || (planes[k].kind == LayerPlane && i in planes[k].sources)
      ensures OnPlane(planes[..k + 1], i)
    {
      if OnPlane(planes[..k], i) {
        var j :| 0 <= j < k && planes[..k][j].kind == LayerPlane && i in planes[..k][j].sources;
        assert planes[..k + 1][j] == planes[..k][j];
      } else {
        assert planes[..k + 1][k] == planes[k];
      }
    }
  }
}
