/**
 * The planner's stages as functions on the state they share: the composition so far, the layers that still need a
 * plane, and the planes not used yet.
 */
module PlanStages {
  import opened Geometry
  import opened Layers
  import opened CompositionTypes

  // ----- what the display controller can scale and blend -----

  /** `source / target > limit` as floating point computes it, also for a target of zero. */
  predicate ScaleExceeds(source: real, target: int, limit: int) {
    if target == 0 then source > 0.0 else source / target as real > limit as real
  }

  predicate CheckLayer(zorder: nat, layer: Layer) {
    var swapped := Rotate90 in layer.transform || Rotate270 in layer.transform;
    var dstW := if swapped then layer.frame.Height() else layer.frame.Width();
    var dstH := if swapped then layer.frame.Width() else layer.frame.Height();
    var vLimit := if layer.format in {YVU420, YUV420, YUV422, UYVY, YUYV, NV12, NV21, RGB565, BGR565} then 4 else 2;
    && !(layer.format in {ARGB8888, ABGR8888, XBGR8888, XRGB8888} && zorder > 0 && layer.blending != PreMult)
    && !ScaleExceeds(layer.cropWidth, dstW, 4)
    && !ScaleExceeds(layer.cropHeight, dstH, vLimit)
  }

  /** `source` is at most `limit` times `target`; a target that is turned over does not count as small. */
  predicate ScaledDown(source: real, target: int, limit: int) {
    if target == 0 then source <= 0.0
    else if target > 0 then source <= (limit * target) as real
    else source >= (limit * target) as real
  }

  lemma {:induction false} ScaleSays(source: real, target: int, limit: int)
    ensures ScaleExceeds(source, target, limit) <==> !ScaledDown(source, target, limit)
  {
    if target != 0 {
      var t, l := target as real, limit as real;
      assert source == (source / t) * t && (limit * target) as real == l * t;
      if t > 0.0 {
        assert source / t <= l ==> (source / t) * t <= l * t;
        assert source / t > l ==> (source / t) * t > l * t;
      } else {
        assert source / t <= l ==> (source / t) * t >= l * t;
        assert source / t > l ==> (source / t) * t < l * t;
      }
    }
  }

  /**
   * What the display controller supports: alpha above the bottom layer only when it is multiplied in, and scaling down
   * at most four times, but heights of 32-bit and unknown formats only twice; a quarter turn exchanges the sides.
   */
  lemma {:induction false} CheckSays(zorder: nat, layer: Layer)
    ensures var f := layer.frame;
            var turned := Rotate90 in layer.transform || Rotate270 in layer.transform;
            var wide := layer.format in {ARGB8888, ABGR8888, XBGR8888, XRGB8888};
            CheckLayer(zorder, layer) <==>
              && (wide && zorder > 0 ==> layer.blending == PreMult)
              && ScaledDown(layer.cropWidth, if turned then f.bottom - f.top else f.right - f.left, 4)
              && ScaledDown(layer.cropHeight, if turned then f.right - f.left else f.bottom - f.top,
                            if wide || layer.format == OtherFormat then 2 else 4)
  {
    var f := layer.frame;
    var turned := Rotate90 in layer.transform || Rotate270 in layer.transform;
    var w, h := f.right - f.left, f.bottom - f.top;
    var dstW, dstH := if turned then h else w, if turned then w else h;
    ScaleSays(layer.cropWidth, dstW, 4);
    ScaleSays(layer.cropHeight, dstH, 2);
    ScaleSays(layer.cropHeight, dstH, 4);
    hide ScaleExceeds, ScaledDown;
  }

  predicate IsRotatedProtected(layer: Layer) {
    layer.isProtected && layer.transform != {}
  }

  // ----- the shared state -----

  /**
   * The composition is `ded` followed by `pre`: dedicated planes, then at most one precomposition plane.
   * `gone` are the layers erased without getting a plane.
   */
  datatype State = State(
    ded: seq<CompositionPlane>,
    pre: seq<CompositionPlane>,
    layers: seq<nat>,
    planes: seq<HwPlane>,
    gone: seq<nat>)

  function Without<T>(s: seq<T>, k: nat): (r: seq<T>)
    requires k < |s|
    ensures forall x :: x in r ==> x in s
  {
    s[..k] + s[k + 1..]
  }

  predicate InRange(info: seq<Layer>, layers: seq<nat>) {
    forall i :: i in layers ==> i < |info|
  }

  /** The layer at position `k` joins the precomposition, which is queued on the highest plane left if there is none. */
  function ToPrecomp(s: State, k: nat): State
    requires k < |s.layers|
  {
    var i := s.layers[k];
    var left := s.(layers := Without(s.layers, k));
    if s.pre != [] then
      left.(pre := [s.pre[0].(sources := s.pre[0].sources + [i])])
    else if s.planes != [] then
      left.(pre := [CompositionPlane(Precomp, s.planes[|s.planes| - 1], [i])], planes := s.planes[..|s.planes| - 1])
    else
      left.(gone := s.gone + [i])
  }

  function Drop(s: State, k: nat): State
    requires k < |s.layers|
  {
    s.(layers := Without(s.layers, k), gone := s.gone + [s.layers[k]])
  }

  /** The layer at position `k` gets the lowest plane left, right before the precomposition, or is dropped. */
  function Dedicate(s: State, k: nat): State
    requires k < |s.layers|
  {
    if s.planes == [] then Drop(s, k)
    else s.(ded := s.ded + [CompositionPlane(LayerPlane, s.planes[0], [s.layers[k]])],
            planes := s.planes[1..], layers := Without(s.layers, k))
  }

  // ----- the stages, from position `k` of the layers on -----

  function NvLimits(info: seq<Layer>, s: State, k: nat): (r: State)
    requires k <= |s.layers| && InRange(info, s.layers)
    ensures InRange(info, r.layers)
    decreases |s.layers| - k
  {
    if k == |s.layers| then s
    else if assert s.layers[k] in s.layers; CheckLayer(s.layers[k], info[s.layers[k]]) then NvLimits(info, s, k + 1)
    else if info[s.layers[k]].isProtected then NvLimits(info, Drop(s, k), k)
    else NvLimits(info, ToPrecomp(s, k), k)
  }

  function FirstPrimary(planes: seq<HwPlane>): (j: nat)
    ensures j <= |planes| && (j < |planes| ==> planes[j].isPrimary)
    ensures forall k :: 0 <= k < j ==> !planes[k].isPrimary
  {
    if planes == [] || planes[0].isPrimary then 0 else 1 + FirstPrimary(planes[1..])
  }

  /** A protected and rotated layer goes to the bottom of the composition on a primary plane, or is dropped. */
  function PlaceRotated(s: State, k: nat): State
    requires k < |s.layers|
  {
    var j := FirstPrimary(s.planes);
    if j == |s.planes| then Drop(s, k)
    else s.(ded := [CompositionPlane(LayerPlane, s.planes[j], [s.layers[k]])] + s.ded,
            planes := Without(s.planes, j), layers := Without(s.layers, k))
  }

  function Rotated(info: seq<Layer>, s: State, k: nat, zorder: int): (r: (State, int))
    requires k <= |s.layers| && InRange(info, s.layers)
    ensures InRange(info, r.0.layers)
    decreases |s.layers| - k
  {
    if k == |s.layers| then (s, zorder)
    else if assert s.layers[k] in s.layers; !IsRotatedProtected(info[s.layers[k]]) then Rotated(info, s, k + 1, zorder)
    else
      var found := FirstPrimary(s.planes) < |s.planes|;
      Rotated(info, PlaceRotated(s, k), k, if found then s.layers[k] else zorder)
  }

  function Protected(info: seq<Layer>, s: State, k: nat, zorder: int): (r: (State, int))
    requires k <= |s.layers| && InRange(info, s.layers)
    ensures InRange(info, r.0.layers)
    decreases |s.layers| - k
  {
    if k == |s.layers| then (s, zorder)
    else if assert s.layers[k] in s.layers; !info[s.layers[k]].isProtected then Protected(info, s, k + 1, zorder)
    else Protected(info, Dedicate(s, k), k, s.layers[k])
  }

  /** The layers not above `zorder` join the precomposition. */
  function BelowToPrecomp(s: State, k: nat, zorder: int): (r: State)
    requires k <= |s.layers|
    ensures forall i :: i in r.layers ==> i in s.layers
    decreases |s.layers| - k
  {
    if k == |s.layers| then s
    else if s.layers[k] > zorder then BelowToPrecomp(s, k + 1, zorder)
    else BelowToPrecomp(ToPrecomp(s, k), k, zorder)
  }

  /** The layers not below `zorder` join the precomposition. */
  function AboveToPrecomp(s: State, k: nat, zorder: nat): (r: State)
    requires k <= |s.layers|
    ensures forall i :: i in r.layers ==> i in s.layers
    decreases |s.layers| - k
  {
    if k == |s.layers| then s
    else if s.layers[k] < zorder then AboveToPrecomp(s, k + 1, zorder)
    else AboveToPrecomp(ToPrecomp(s, k), k, zorder)
  }

  function Lowest(s: seq<nat>): (m: nat)
    requires s != []
    ensures m in s && forall i :: i in s ==> m <= i
  {
    if |s| == 1 then s[0]
    else
      var rest := Lowest(s[1..]);
      assert forall i :: i in s ==> i == s[0] || i in s[1..];
      if s[0] <= rest then s[0] else rest
  }

  function GreedyFill(s: State): State
    decreases |s.layers|
  {
    if s.layers == [] || s.planes == [] then s else GreedyFill(Dedicate(s, 0))
  }

  function RestToPrecomp(s: State): State
    decreases |s.layers|
  {
    if s.layers == [] then s else RestToPrecomp(ToPrecomp(s, 0))
  }

  function StageNvLimits(info: seq<Layer>, s: State): (r: State)
    requires InRange(info, s.layers)
    ensures InRange(info, r.layers)
  {
    NvLimits(info, s, 0)
  }

  function StageProtectedRotated(info: seq<Layer>, s: State): (r: State)
    requires InRange(info, s.layers)
    ensures InRange(info, r.layers)
  {
    var (t, zorder) := Rotated(info, s, 0, -1);
    if zorder == -1 then t else BelowToPrecomp(t, 0, zorder)
  }

  function StageProtected(info: seq<Layer>, s: State): (r: State)
    requires InRange(info, s.layers)
    ensures InRange(info, r.layers)
  {
    var (t, zorder) := Protected(info, s, 0, -1);
    if zorder == -1 then t else BelowToPrecomp(t, 0, zorder)
  }

  function StagePrecomp(s: State): State {
    if s.pre == [] || s.pre[0].sources == [] then s else AboveToPrecomp(s, 0, Lowest(s.pre[0].sources))
  }

  function StageGreedy(s: State): State {
    var t := GreedyFill(s);
    if t.pre == [] then t else RestToPrecomp(t)
  }

  /** The state before the first stage: a precomposition plane is reserved when there are more layers than planes. */
  function InitialState(layers: seq<nat>, planes: seq<HwPlane>): State {
    if |layers| > |planes| && planes != [] then
      State([], [CompositionPlane(Precomp, planes[|planes| - 1], [])], layers, planes[..|planes| - 1], [])
    else
      State([], [], layers, planes, [])
  }

  function AfterLimits(info: seq<Layer>, layers: seq<nat>, planes: seq<HwPlane>): (s: State)
    requires InRange(info, layers)
    ensures InRange(info, s.layers)
  {
    StageNvLimits(info, InitialState(layers, planes))
  }

  function AfterProtected(info: seq<Layer>, layers: seq<nat>, planes: seq<HwPlane>): State
    requires InRange(info, layers)
  {
    StageProtected(info, StageProtectedRotated(info, AfterLimits(info, layers, planes)))
  }

  /** All five stages in the order the planner is built with. */
  function Provision(info: seq<Layer>, layers: seq<nat>, planes: seq<HwPlane>): State
    requires InRange(info, layers)
  {
    StageGreedy(StagePrecomp(AfterProtected(info, layers, planes)))
  }
}
