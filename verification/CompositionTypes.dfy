/** Hardware planes, the planes of a composition, and the regions rendered ahead of it. */
module CompositionTypes {
  import opened Geometry

  /** A hardware plane; `crtcs` are the display controllers that can scan it out. */
  datatype HwPlane = HwPlane(id: nat, isPrimary: bool, crtcs: set<nat>)

  datatype PlaneType = Disable | LayerPlane | Precomp | Squash

  datatype CompositionPlane = CompositionPlane(kind: PlaneType, plane: HwPlane, sources: seq<nat>)

  datatype CompositionRegion = CompositionRegion(frame: Rect, sources: seq<nat>)

  ghost predicate Ascending(s: seq<nat>) {
    forall i, j :: 0 <= i < j < |s| ==> s[i] < s[j]
  }

  ghost predicate Descending(s: seq<nat>) {
    forall i, j :: 0 <= i < j < |s| ==> s[i] > s[j]
  }

  /** The highest of a descending list of layers; nothing is above -1. */
  ghost function Mark(rotated: seq<nat>): int {
    if rotated == [] then -1 else rotated[0]
  }
}
