/** Which regions of an unchanging layer geometry have stopped changing, and may be shown from a cached rendering. */
module SquashStates {
  import opened Geometry
  import opened SeparateRects
  import opened Layers

  const HISTORY_LENGTH: nat := 6
  const UNSIGNED_LIMIT: nat := 0x1_0000_0000

  /** `changeHistory` is a bit set, least significant bit first. */
  datatype Region = Region(rect: Rect, layerRefs: set<nat>, changeHistory: seq<bool>, squashed: bool)

  // ----- what happened, frame by frame -----

  ghost predicate LayerChanged(previous: seq<Layer>, now: seq<Layer>, i: nat) {
    i < |now| && i < |previous| && (now[i].isProtected || previous[i].handle != now[i].handle)
  }

  ghost predicate RegionChanged(previous: seq<Layer>, now: seq<Layer>, refs: set<nat>) {
    exists i :: i in refs && LayerChanged(previous, now, i)
  }

  /** The layers seen just before frame `t`; `base` are those of the frame that started the history. */
  ghost function SeenBefore(base: seq<Layer>, frames: seq<seq<Layer>>, t: nat): seq<Layer>
    requires t <= |frames|
  {
    if t == 0 then base else frames[t - 1]
  }

  ghost predicate ChangedInFrame(base: seq<Layer>, frames: seq<seq<Layer>>, t: nat, refs: set<nat>)
    requires t < |frames|
  {
    RegionChanged(SeenBefore(base, frames, t), frames[t], refs)
  }

  ghost predicate QuietLately(base: seq<Layer>, frames: seq<seq<Layer>>, refs: set<nat>) {
    forall t :: |frames| - HISTORY_LENGTH <= t < |frames| && 0 <= t ==> !ChangedInFrame(base, frames, t, refs)
  }

  /** The promise: enough frames on record, and no change in this frame nor in the ones the history remembers. */
  ghost predicate StableIn(base: seq<Layer>, frames: seq<seq<Layer>>, now: seq<Layer>, refs: set<nat>) {
    && |frames| % UNSIGNED_LIMIT >= HISTORY_LENGTH
    && !RegionChanged(SeenBefore(base, frames, |frames|), now, refs)
    && QuietLately(base, frames, refs)
  }

  /** The runs the state remembers: all frames have the layers of the first, and the region is one of them. */
  ghost predicate SameLayers(base: seq<Layer>, frames: seq<seq<Layer>>, now: seq<Layer>, refs: set<nat>) {
    && |now| == |base| && (forall t :: 0 <= t < |frames| ==> |frames[t]| == |base|)
    && forall i :: i in refs ==> i < |base|
  }

  /** Layer `i` was never protected in the last six frames and has shown one buffer since the frame before them. */
  ghost predicate StoodStill(base: seq<Layer>, frames: seq<seq<Layer>>, now: seq<Layer>, i: nat)
    requires |frames| >= 6 && i < |now| == |base| && forall t :: 0 <= t < |frames| ==> |frames[t]| == |base|
  {
    && !now[i].isProtected
    && (forall t :: |frames| - 6 <= t < |frames| ==> !frames[t][i].isProtected && frames[t][i].handle == now[i].handle)
    && (if |frames| == 6 then base else frames[|frames| - 7])[i].handle == now[i].handle
  }

  /** A region is stable when at least six frames are counted, modulo 2^32, and all its layers have stood still. */
  lemma {:induction false} StableSays(base: seq<Layer>, frames: seq<seq<Layer>>, now: seq<Layer>, refs: set<nat>)
    requires SameLayers(base, frames, now, refs)
    ensures StableIn(base, frames, now, refs) <==>
              && |frames| % 4294967296 >= 6
              && forall i :: i in refs ==> StoodStill(base, frames, now, i)
  {
    if |frames| % 4294967296 >= 6 {
      if StableIn(base, frames, now, refs) {
        forall i | i in refs
          ensures StoodStill(base, frames, now, i)
        {
          StandsStill(base, frames, now, refs, i);
        }
      } else if forall i :: i in refs ==> StoodStill(base, frames, now, i) {
        StillIsStable(base, frames, now, refs);
      }
    }
  }

  lemma {:induction false} SameHandles(base: seq<Layer>, frames: seq<seq<Layer>>, now: seq<Layer>, refs: set<nat>,
                                       i: nat, t: nat)
    requires SameLayers(base, frames, now, refs) && StableIn(base, frames, now, refs) && i in refs
    requires 6 <= |frames| && |frames| - 6 <= t <= |frames|
    ensures SeenBefore(base, frames, t)[i].handle == now[i].handle
    decreases |frames| - t
  {
    if t < |frames| {
      SameHandles(base, frames, now, refs, i, t + 1);
      assert !ChangedInFrame(base, frames, t, refs);
      assert !LayerChanged(SeenBefore(base, frames, t), frames[t], i);
    } else {
      assert !LayerChanged(SeenBefore(base, frames, |frames|), now, i);
    }
  }

  lemma {:induction false} StandsStill(base: seq<Layer>, frames: seq<seq<Layer>>, now: seq<Layer>, refs: set<nat>,
                                       i: nat)
    requires SameLayers(base, frames, now, refs) && StableIn(base, frames, now, refs) && i in refs && |frames| >= 6
    ensures StoodStill(base, frames, now, i)
  {
    SameHandles(base, frames, now, refs, i, |frames| - 6);
    forall t | |frames| - 6 <= t < |frames|
      ensures !frames[t][i].isProtected && frames[t][i].handle == now[i].handle
    {
      SameHandles(base, frames, now, refs, i, t + 1);
      assert !ChangedInFrame(base, frames, t, refs);
      assert !LayerChanged(SeenBefore(base, frames, t), frames[t], i);
    }
    SameHandles(base, frames, now, refs, i, |frames|);
    assert !LayerChanged(SeenBefore(base, frames, |frames|), now, i);
  }

  lemma {:induction false} StillIsStable(base: seq<Layer>, frames: seq<seq<Layer>>, now: seq<Layer>, refs: set<nat>)
    requires SameLayers(base, frames, now, refs) && |frames| % 4294967296 >= 6
    requires forall i :: i in refs ==> StoodStill(base, frames, now, i)
    ensures StableIn(base, frames, now, refs)
  {
    forall i | i in refs
      ensures !LayerChanged(SeenBefore(base, frames, |frames|), now, i)
    {
      assert StoodStill(base, frames, now, i);
    }
    forall t | |frames| - HISTORY_LENGTH <= t < |frames| && 0 <= t
      ensures !ChangedInFrame(base, frames, t, refs)
    {
      forall i | i in refs
        ensures !LayerChanged(SeenBefore(base, frames, t), frames[t], i)
      {
        assert StoodStill(base, frames, now, i);
      }
    }
  }

  /** Bit `j` tells whether the region changed `j + 1` frames ago. */
  ghost predicate HistoryOf(base: seq<Layer>, frames: seq<seq<Layer>>, refs: set<nat>, history: seq<bool>) {
    && |history| == HISTORY_LENGTH
    && forall j :: 0 <= j < HISTORY_LENGTH ==>
         (history[j] <==> j < |frames| && ChangedInFrame(base, frames, |frames| - 1 - j, refs))
  }

  lemma {:induction false} NoneSetIsQuiet(base: seq<Layer>, frames: seq<seq<Layer>>, refs: set<nat>, history: seq<bool>)
    requires HistoryOf(base, frames, refs, history)
    ensures (forall j :: 0 <= j < |history| ==> !history[j]) <==> QuietLately(base, frames, refs)
  {
    if forall j :: 0 <= j < |history| ==> !history[j] {
      forall t | |frames| - HISTORY_LENGTH <= t < |frames| && 0 <= t
        ensures !ChangedInFrame(base, frames, t, refs)
      {
        assert !history[|frames| - 1 - t];
      }
    }
  }

  /** The history one frame later: the new bit comes first and the oldest is dropped. */
  function Shifted(history: seq<bool>, bit: bool): seq<bool>
    requires |history| == HISTORY_LENGTH
  {
    [bit] + history[..HISTORY_LENGTH - 1]
  }

  lemma {:induction false} HistoryShifts(base: seq<Layer>, frames: seq<seq<Layer>>, now: seq<Layer>, refs: set<nat>,
                                         history: seq<bool>, bit: bool)
    requires HistoryOf(base, frames, refs, history)
    requires bit <==> RegionChanged(SeenBefore(base, frames, |frames|), now, refs)
    ensures HistoryOf(base, frames + [now], refs, Shifted(history, bit))
  {
    var frames' := frames + [now];
    assert forall t :: 0 <= t <= |frames| ==> SeenBefore(base, frames', t) == SeenBefore(base, frames, t);
    assert forall t :: 0 <= t < |frames| ==> frames'[t] == frames[t];
    var history' := Shifted(history, bit);
    forall j | 0 <= j < HISTORY_LENGTH
      ensures history'[j] <==> j < |frames'| && ChangedInFrame(base, frames', |frames'| - 1 - j, refs)
    {
      if j > 0 && j < |frames'| {
        assert history'[j] == history[j - 1];
        assert ChangedInFrame(base, frames', |frames'| - 1 - j, refs) ==
                 ChangedInFrame(base, frames, |frames| - 1 - (j - 1), refs);
      }
    }
  }

  function Handles(layers: seq<Layer>): (handles: seq<nat>)
    ensures |handles| == |layers| && forall i :: 0 <= i < |layers| ==> handles[i] == layers[i].handle
  {
    seq(|layers|, i requires 0 <= i < |layers| => layers[i].handle)
  }

  function AsRectSets(regions: seq<Region>): (sets: seq<RectSet>)
    ensures |sets| == |regions|
  {
    seq(|regions|, k requires 0 <= k < |regions| => RectSet(regions[k].layerRefs, regions[k].rect))
  }

  /** In every squashed region the layers `rendered` have the given handles. */
  ghost predicate Shows(rendered: seq<Layer>, regions: seq<Region>, handles: seq<nat>) {
    forall k :: 0 <= k < |regions| && regions[k].squashed ==> ShowsLayers(rendered, regions[k].layerRefs, handles)
  }

  ghost predicate ShowsLayers(rendered: seq<Layer>, refs: set<nat>, handles: seq<nat>) {
    forall i :: i in refs && i < |handles| ==> i < |rendered| && rendered[i].handle == handles[i]
  }

  class SquashState {
    var generationNumber: nat
    var validHistory: nat
    var lastHandles: seq<nat>
    var regions: seq<Region>

    // The run since the last Init, and what the squash framebuffer was last rendered from.
    ghost var base: seq<Layer>
    ghost var frames: seq<seq<Layer>>
    ghost var renderedLayers: seq<Layer>
    ghost var renderedStable: seq<bool>

    ghost function Latest(): seq<Layer>
      reads this
    {
      SeenBefore(base, frames, |frames|)
    }

    ghost predicate Valid()
      reads this
    {
      && validHistory == |frames| % UNSIGNED_LIMIT
      && |Latest()| == |base| == |lastHandles|
      && (forall i :: 0 <= i < |lastHandles| ==> lastHandles[i] == Latest()[i].handle)
      && (forall k :: 0 <= k < |regions| ==> HistoryOf(base, frames, regions[k].layerRefs, regions[k].changeHistory))
      && (if |base| <= MAX_ELEMENTS then Separates(Frames(base), AsRectSets(regions)) else regions == [])
    }

    /** The squash framebuffer still shows what its squashed regions should show. */
    ghost predicate RenderInSync()
      reads this
    {
      RenderedFor(lastHandles)
    }

    ghost predicate RenderedFor(handles: seq<nat>)
      reads this
    {
      && |renderedStable| == |regions|
      && (forall k :: 0 <= k < |regions| ==> renderedStable[k] == regions[k].squashed)
      && Shows(renderedLayers, regions, handles)
    }

    predicate IsStable(k: nat)
      requires k < |regions|
      reads this
    {
      validHistory >= HISTORY_LENGTH && forall j :: 0 <= j < |regions[k].changeHistory| ==> !regions[k].changeHistory[j]
    }

    constructor ()
      ensures Valid() && RenderInSync() && base == [] && frames == [] && regions == []
    {
      generationNumber, validHistory, lastHandles, regions := 0, 0, [], [];
      base, frames, renderedLayers, renderedStable := [], [], [], [];
    }

    method Init(layers: seq<Layer>)
      modifies this
      ensures Valid() && RenderInSync()
      ensures base == layers && frames == []
      ensures generationNumber == old(generationNumber) + 1
      ensures forall k :: 0 <= k < |regions| ==> !regions[k].squashed
    {
      generationNumber := generationNumber + 1;
      validHistory := 0;
      base, frames := layers, [];
      var inRects: seq<Rect>;
      inRects, lastHandles := RectsAndHandles(layers);
      var outRegions := SeparateRects64(inRects);
      regions := NewRegions(outRegions);
      renderedLayers, renderedStable := layers, seq(|regions|, _ => false);
    }

    static method RectsAndHandles(layers: seq<Layer>) returns (inRects: seq<Rect>, handles: seq<nat>)
      ensures inRects == Frames(layers) && handles == Handles(layers)
    {
      inRects, handles := [], [];
      for i := 0 to |layers|
        invariant |inRects| == |handles| == i
        invariant forall j :: 0 <= j < i ==> inRects[j] == layers[j].frame && handles[j] == layers[j].handle
      {
        inRects := inRects + [layers[i].frame];
        handles := handles + [layers[i].handle];
      }
    }

    /** Regions without a history, none of them squashed. */
    static method NewRegions(outRegions: seq<RectSet>) returns (made: seq<Region>)
      ensures AsRectSets(made) == outRegions
      ensures forall k :: 0 <= k < |made| ==>
                !made[k].squashed && made[k].changeHistory == [false, false, false, false, false, false]
    {
      made := [];
      for k := 0 to |outRegions|
        invariant |made| == k
        invariant forall j :: 0 <= j < k ==>
          made[j] == Region(outRegions[j].rect, outRegions[j].ids, [false, false, false, false, false, false], false)
      {
        var history := [false, false, false, false, false, false];
        made := made + [Region(outRegions[k].rect, outRegions[k].ids, history, false)];
      }
    }

    /** A frame with another number of layers is reported as unchanged. */
    method GenerateHistory(layers: seq<Layer>) returns (changedRegions: seq<bool>)
      requires Valid() && |lastHandles| <= MAX_ELEMENTS
      ensures |changedRegions| == |regions|
      ensures |layers| != |lastHandles| ==> forall k :: 0 <= k < |regions| ==> !changedRegions[k]
      ensures |layers| == |lastHandles| ==> forall k :: 0 <= k < |regions| ==>
                (changedRegions[k] <==> RegionChanged(Latest(), layers, regions[k].layerRefs))
    {
      changedRegions := seq(|regions|, _ => false);
      if |layers| != |lastHandles| {
        return;
      }
      var changedLayers: set<nat> := {};
      for i := 0 to |lastHandles|
        invariant forall j: nat :: j in changedLayers <==> j < i && LayerChanged(Latest(), layers, j)
      {
        if layers[i].isProtected || lastHandles[i] != layers[i].handle {
          changedLayers := changedLayers + {i};
        }
      }
      for k := 0 to |regions|
        invariant |changedRegions| == |regions|
        invariant forall j :: 0 <= j < k ==>
                    (changedRegions[j] <==> RegionChanged(Latest(), layers, regions[j].layerRefs))
      {
        var both := regions[k].layerRefs * changedLayers;
        assert (both != {}) <==> RegionChanged(Latest(), layers, regions[k].layerRefs) by {
          if RegionChanged(Latest(), layers, regions[k].layerRefs) {
            var i :| i in regions[k].layerRefs && LayerChanged(Latest(), layers, i);
            assert i in both;
          }
        }
        changedRegions := changedRegions[k := both != {}];
      }
    }

    method StableRegionsWithMarginalHistory(changedRegions: seq<bool>) returns (stableRegions: seq<bool>)
      requires Valid() && |changedRegions| == |regions|
      ensures |stableRegions| == |regions|
      ensures forall k :: 0 <= k < |regions| ==>
                (stableRegions[k] <==> !changedRegions[k] && |frames| % UNSIGNED_LIMIT >= HISTORY_LENGTH
                                       && QuietLately(base, frames, regions[k].layerRefs))
    {
      stableRegions := seq(|regions|, _ => false);
      for k := 0 to |regions|
        invariant |stableRegions| == |regions|
        invariant forall j :: 0 <= j < k ==>
                    (stableRegions[j] <==> !changedRegions[j] && |frames| % UNSIGNED_LIMIT >= HISTORY_LENGTH
                                           && QuietLately(base, frames, regions[j].layerRefs))
      {
        NoneSetIsQuiet(base, frames, regions[k].layerRefs, regions[k].changeHistory);
        stableRegions := stableRegions[k := !changedRegions[k] && IsStable(k)];
      }
    }

    method RecordHistory(layers: seq<Layer>, changedRegions: seq<bool>)
      requires Valid()
      requires |layers| == |lastHandles| && |changedRegions| == |regions| ==>
                 forall k :: 0 <= k < |regions| ==>
                   (changedRegions[k] <==> RegionChanged(Latest(), layers, regions[k].layerRefs))
      modifies this`validHistory, this`lastHandles, this`regions, this`frames
      ensures Valid() && |regions| == |old(regions)|
      ensures |layers| == |old(lastHandles)| && |changedRegions| == |old(regions)| ==>
                && frames == old(frames) + [layers]
                && forall k :: 0 <= k < |regions| ==>
                     var was := old(regions)[k];
                     regions[k] == was.(changeHistory := Shifted(was.changeHistory, changedRegions[k]))
      ensures !(|layers| == |old(lastHandles)| && |changedRegions| == |old(regions)|) ==>
                frames == old(frames) && regions == old(regions) && lastHandles == old(lastHandles)
    {
      if |layers| != |lastHandles| {
        return;
      }
      if |changedRegions| != |regions| {
        return;
      }
      for i := 0 to |lastHandles|
        modifies this`lastHandles
        invariant |lastHandles| == |layers|
        invariant forall j :: 0 <= j < i ==> lastHandles[j] == layers[j].handle
      {
        lastHandles := lastHandles[i := layers[i].handle];
      }
      for k := 0 to |regions|
        modifies this`regions
        invariant |regions| == |old(regions)|
        invariant forall j :: 0 <= j < k ==>
          regions[j] == old(regions)[j].(changeHistory := Shifted(old(regions)[j].changeHistory, changedRegions[j]))
        invariant forall j :: k <= j < |regions| ==> regions[j] == old(regions)[j]
      {
        var history := Shifted(regions[k].changeHistory, changedRegions[k]);
        regions := regions[k := regions[k].(changeHistory := history)];
      }
      forall k | 0 <= k < |regions|
        ensures HistoryOf(base, frames + [layers], regions[k].layerRefs, regions[k].changeHistory)
      {
        HistoryShifts(base, frames, layers, regions[k].layerRefs, old(regions)[k].changeHistory, changedRegions[k]);
      }
      assert AsRectSets(regions) == AsRectSets(old(regions));
      validHistory := (validHistory + 1) % UNSIGNED_LIMIT;
      frames := frames + [layers];
    }

    /** Tells whether the squashed set is a new one, which makes the caller render it from `shown`. */
    method RecordAndCompareSquashed(squashedRegions: seq<bool>, ghost shown: seq<Layer>) returns (changed: bool)
      requires Valid()
      modifies this`regions, this`renderedLayers, this`renderedStable
      ensures Valid() && |regions| == |old(regions)|
      ensures |squashedRegions| != |regions| ==>
                !changed && regions == old(regions) && renderedLayers == old(renderedLayers)
                  && renderedStable == old(renderedStable)
      ensures |squashedRegions| == |regions| ==>
                && (forall k :: 0 <= k < |regions| ==> regions[k] == old(regions)[k].(squashed := squashedRegions[k]))
                && (changed <==> exists k :: 0 <= k < |regions| && old(regions)[k].squashed != squashedRegions[k])
                && renderedLayers == (if changed then shown else old(renderedLayers))
                && renderedStable == (if changed then squashedRegions else old(renderedStable))
    {
      if |squashedRegions| != |regions| {
        return false;
      }
      changed := false;
      for k := 0 to |regions|
        modifies this`regions
        invariant |regions| == |old(regions)|
        invariant forall j :: 0 <= j < k ==> regions[j] == old(regions)[j].(squashed := squashedRegions[j])
        invariant forall j :: k <= j < |regions| ==> regions[j] == old(regions)[j]
        invariant changed <==> exists j :: 0 <= j < k && old(regions)[j].squashed != squashedRegions[j]
      {
        if regions[k].squashed != squashedRegions[k] {
          regions := regions[k := regions[k].(squashed := squashedRegions[k])];
          changed := true;
        }
      }
      assert AsRectSets(regions) == AsRectSets(old(regions));
      if changed {
        renderedLayers, renderedStable := shown, squashedRegions;
      }
    }

    /**
     * What one frame with unchanged geometry does to the state. A region is stable exactly as `StableIn` says, and when
     * the framebuffer is not rendered again, it was rendered from the same stable set and the same handles.
     */
    method ObserveFrame(layers: seq<Layer>) returns (stableRegions: seq<bool>, useFramebuffer: bool, render: bool)
      requires Valid() && RenderInSync()
      requires |layers| == |lastHandles| <= MAX_ELEMENTS
      modifies this
      ensures Valid() && RenderInSync()
      ensures base == old(base) && frames == old(frames) + [layers]
      ensures |stableRegions| == |regions| && AsRectSets(regions) == old(AsRectSets(regions))
      ensures forall k :: 0 <= k < |regions| ==>
                (stableRegions[k] <==> StableIn(base, old(frames), layers, regions[k].layerRefs))
      ensures useFramebuffer <==> exists k :: 0 <= k < |regions| && stableRegions[k]
      ensures renderedStable == stableRegions
      ensures Shows(renderedLayers, regions, Handles(layers))
              && forall k :: 0 <= k < |regions| ==> (regions[k].squashed <==> stableRegions[k])
      ensures if render then renderedLayers == layers
              else renderedLayers == old(renderedLayers) && renderedStable == old(renderedStable)
      ensures render <==> exists k :: 0 <= k < |regions| && old(regions)[k].squashed != stableRegions[k]
    {
      stableRegions := RecordFrame(layers);
      useFramebuffer := exists k :: 0 <= k < |stableRegions| && stableRegions[k];
      render := ShowFrame(layers, stableRegions, old(frames), old(lastHandles));
    }

    /** The second half of the step: the framebuffer comes to show the stable regions of the frame just recorded. */
    method ShowFrame(layers: seq<Layer>, stableRegions: seq<bool>, ghost before: seq<seq<Layer>>,
                     ghost handles: seq<nat>)
      returns (render: bool)
      requires Valid() && |stableRegions| == |regions| && RenderedFor(handles) && |handles| == |layers|
      requires frames == before + [layers] && handles == Handles(SeenBefore(base, before, |before|))
      requires forall k :: 0 <= k < |regions| ==>
                 (stableRegions[k] <==> StableIn(base, before, layers, regions[k].layerRefs))
      modifies this`regions, this`renderedLayers, this`renderedStable
      ensures Valid() && |regions| == |old(regions)| && AsRectSets(regions) == old(AsRectSets(regions))
      ensures renderedStable == stableRegions && Shows(renderedLayers, regions, Handles(layers))
      ensures forall k :: 0 <= k < |regions| ==>
                (regions[k].squashed <==> stableRegions[k]) && regions[k].layerRefs == old(regions)[k].layerRefs
      ensures if render then renderedLayers == layers
              else renderedLayers == old(renderedLayers) && renderedStable == old(renderedStable)
      ensures render <==> exists k :: 0 <= k < |regions| && old(regions)[k].squashed != stableRegions[k]
    {
      hide Valid, StableIn, SeenBefore, ShowsLayers;
      ghost var recorded, shown := regions, renderedLayers;
      render := RecordAndCompareSquashed(stableRegions, layers);
      assert AsRectSets(regions) == AsRectSets(recorded);
      RenderingKept(base, before, layers, recorded, handles, shown, regions, stableRegions, render);
      assert renderedStable == stableRegions;
    }

    /** The first half of the step: what has changed is recorded, and what is stable is told. */
    method RecordFrame(layers: seq<Layer>) returns (stableRegions: seq<bool>)
      requires Valid() && |layers| == |lastHandles| <= MAX_ELEMENTS
      modifies this`validHistory, this`lastHandles, this`regions, this`frames
      ensures Valid() && frames == old(frames) + [layers]
      ensures |stableRegions| == |regions| && AsRectSets(regions) == old(AsRectSets(regions))
      ensures forall k :: 0 <= k < |regions| ==>
                && regions[k].layerRefs == old(regions)[k].layerRefs && regions[k].squashed == old(regions)[k].squashed
                && (stableRegions[k] <==> StableIn(base, old(frames), layers, regions[k].layerRefs))
    {
      var changedRegions := GenerateHistory(layers);
      stableRegions := StableRegionsWithMarginalHistory(changedRegions);
      hide Valid, QuietLately, RegionChanged;
      RecordHistory(layers, changedRegions);
      assert AsRectSets(regions) == old(AsRectSets(regions));
    }
  }

  lemma {:induction false} StableKeepsHandles(base: seq<Layer>, frames: seq<seq<Layer>>, now: seq<Layer>,
                                              refs: set<nat>, handles: seq<nat>)
    requires StableIn(base, frames, now, refs) && |now| == |handles|
             && handles == Handles(SeenBefore(base, frames, |frames|))
    ensures forall i :: i in refs && i < |now| ==> handles[i] == now[i].handle
  {
    forall i | i in refs && i < |now|
      ensures handles[i] == now[i].handle
    {
      assert !LayerChanged(SeenBefore(base, frames, |frames|), now, i);
    }
  }

  /** What was rendered still has the right handles in the regions squashed now, or is rendered anew. */
  lemma {:induction false} RenderingKept(base: seq<Layer>, frames: seq<seq<Layer>>, now: seq<Layer>, was: seq<Region>,
                                         handles: seq<nat>, rendered: seq<Layer>, regions: seq<Region>,
                                         stable: seq<bool>, render: bool)
    requires Shows(rendered, was, handles) && |was| == |regions| == |stable| && |now| == |handles|
    requires handles == Handles(SeenBefore(base, frames, |frames|))
    requires forall k :: 0 <= k < |regions| ==>
               && regions[k].layerRefs == was[k].layerRefs && (regions[k].squashed <==> stable[k])
               && (stable[k] <==> StableIn(base, frames, now, regions[k].layerRefs))
    requires render <==> exists k :: 0 <= k < |regions| && was[k].squashed != stable[k]
    ensures Shows(if render then now else rendered, regions, Handles(now))
  {
    hide StableIn, SeenBefore;
    var shown := if render then now else rendered;
    forall k | 0 <= k < |regions| && regions[k].squashed
      ensures ShowsLayers(shown, regions[k].layerRefs, Handles(now))
    {
      if !render {
        assert ShowsLayers(rendered, was[k].layerRefs, handles);
        StableKeepsHandles(base, frames, now, was[k].layerRefs, handles);
      }
    }
  }
}
