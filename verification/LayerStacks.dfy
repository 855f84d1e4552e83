/** What a viewer sees at one pixel, as a stack of layer indices from the bottom up. */
module LayerStacks {
  import opened Geometry
  import opened Layers
  import opened CompositionTypes
  import opened HolePunch

  /** The layers of `who` that cover `p`, in z-order. */
  ghost function StackOf(frames: seq<Rect>, who: set<nat>, p: Point, n: nat): seq<nat> {
    if n == 0 then []
    else StackOf(frames, who, p, n - 1) + if n - 1 in who && Covers(frames, n - 1, p) then [n - 1] else []
  }

  /** Painting every layer of `who` in z-order. */
  ghost function FullStack(frames: seq<Rect>, who: set<nat>, p: Point): seq<nat> {
    StackOf(frames, who, p, |frames|)
  }

  /** Protected content is opaque: nothing below the topmost protected layer can be seen. */
  ghost function Visible(info: seq<Layer>, stack: seq<nat>): seq<nat> {
    if stack == [] then []
    else
      var top := stack[|stack| - 1];
      if IsProtected(info, top) then [top] else Visible(info, stack[..|stack| - 1]) + [top]
  }

  ghost function Reversed(s: seq<nat>): seq<nat> {
    if s == [] then [] else Reversed(s[1..]) + [s[0]]
  }

  /** What the precomposition shows: its regions list their layers from the top down. */
  ghost function RegionStack(regions: seq<CompositionRegion>, p: Point, n: nat): seq<nat>
    requires n <= |regions|
  {
    if n == 0 then []
    else RegionStack(regions, p, n - 1)
         + if regions[n - 1].frame.Contains(p) then Reversed(regions[n - 1].sources) else []
  }

  ghost function DedicatedStack(frames: seq<Rect>, sources: seq<nat>, p: Point): seq<nat> {
    if sources == [] then []
    else DedicatedStack(frames, sources[..|sources| - 1], p)
         + if Covers(frames, sources[|sources| - 1], p) then [sources[|sources| - 1]] else []
  }

  /** One plane of the composition; the squash plane shows nothing outside its regions. */
  ghost function PlaneStack(frames: seq<Rect>, regions: seq<CompositionRegion>, plane: CompositionPlane,
                            p: Point): seq<nat> {
    match plane.kind
    case LayerPlane => DedicatedStack(frames, plane.sources, p)
    case Precomp => RegionStack(regions, p, |regions|)
    case Squash => []
    case Disable => []
  }

  /** Scanning out the planes of a composition from the bottom up. */
  ghost function Painted(frames: seq<Rect>, regions: seq<CompositionRegion>, planes: seq<CompositionPlane>,
                         p: Point): seq<nat> {
    if planes == [] then []
    else Painted(frames, regions, planes[..|planes| - 1], p) + PlaneStack(frames, regions, planes[|planes| - 1], p)
  }

  // ----- ascending sequences are determined by their members -----

  lemma {:induction false} FirstIsLeast(a: seq<nat>)
    requires Ascending(a) && a != []
    ensures Ascending(a[1..])
    ensures a[0] in a && forall i :: i in a[1..] <==> i in a && i != a[0]
    ensures forall i :: i in a ==> a[0] <= i
  {
    assert a == [a[0]] + a[1..];
  }

  lemma {:induction false} AscendingUnique(a: seq<nat>, b: seq<nat>)
    requires Ascending(a) && Ascending(b)
    requires forall i :: i in a <==> i in b
    ensures a == b
  {
    EmptyTogether(a, b);
    if a != [] {
      FirstIsLeast(a);
      FirstIsLeast(b);
      AscendingUnique(a[1..], b[1..]);
      assert a == [a[0]] + a[1..] && b == [b[0]] + b[1..];
    }
  }

  lemma {:induction false} EmptyTogether(a: seq<nat>, b: seq<nat>)
    requires forall i :: i in a <==> i in b
    ensures a == [] <==> b == []
  {
    assert a != [] ==> a[0] in a;
    assert b != [] ==> b[0] in b;
  }

  lemma {:induction false} StackOfMembers(frames: seq<Rect>, who: set<nat>, p: Point, n: nat)
    ensures Ascending(StackOf(frames, who, p, n))
    ensures forall i :: i in StackOf(frames, who, p, n) <==> i < n && i in who && Covers(frames, i, p)
  {
    if n > 0 {
      StackOfMembers(frames, who, p, n - 1);
      var rest := StackOf(frames, who, p, n - 1);
      assert forall k :: 0 <= k < |rest| ==> rest[k] in rest;
    }
  }

  lemma {:induction false} ReversedMember(s: seq<nat>, i: nat)
    ensures i in Reversed(s) <==> i in s
  {
    if s != [] {
      ReversedMember(s[1..], i);
      assert s == [s[0]] + s[1..];
    }
  }

  lemma {:induction false} ReversedMembers(s: seq<nat>)
    ensures Descending(s) ==> Ascending(Reversed(s))
    ensures forall i :: i in Reversed(s) <==> i in s
  {
    forall i
      ensures i in Reversed(s) <==> i in s
    {
      ReversedMember(s, i);
    }
    if s != [] && Descending(s) {
      ReversedMembers(s[1..]);
      var rest := Reversed(s[1..]);
      forall k | 0 <= k < |rest|
        ensures rest[k] < s[0]
      {
        assert rest[k] in rest;
      }
    }
  }

  lemma {:induction false} LastMember(s: seq<nat>)
    requires s != []
    ensures forall i :: i in s <==> i in s[..|s| - 1] || i == s[|s| - 1]
  {
    assert s == s[..|s| - 1] + [s[|s| - 1]];
  }

  /** The dedicated layers over the pixel. */
  lemma {:induction false} DedicatedStackMembers(frames: seq<Rect>, sources: seq<nat>, p: Point)
    ensures forall i :: i in DedicatedStack(frames, sources, p) <==> i in sources && Covers(frames, i, p)
  {
    if sources != [] {
      hide Covers;
      DedicatedStackMembers(frames, sources[..|sources| - 1], p);
      LastMember(sources);
    }
  }

  /** They come in the order of their planes. */
  lemma {:induction false} DedicatedStackOrder(frames: seq<Rect>, sources: seq<nat>, p: Point)
    ensures Ascending(sources) ==> Ascending(DedicatedStack(frames, sources, p))
    ensures Descending(sources) ==> Descending(DedicatedStack(frames, sources, p))
  {
    if sources != [] {
      hide Covers;
      var init, rest := sources[..|sources| - 1], DedicatedStack(frames, sources[..|sources| - 1], p);
      DedicatedStackOrder(frames, init, p);
      DedicatedStackMembers(frames, init, p);
      hide DedicatedStack;
      forall k | 0 <= k < |rest|
        ensures rest[k] in init
      {
      }
    }
  }

  lemma {:induction false} DedicatedStackJoins(frames: seq<Rect>, a: seq<nat>, b: seq<nat>, p: Point)
    ensures DedicatedStack(frames, a + b, p) == DedicatedStack(frames, a, p) + DedicatedStack(frames, b, p)
  {
    if b == [] {
      assert a + b == a;
    } else {
      assert (a + b)[..|a + b| - 1] == a + b[..|b| - 1];
      DedicatedStackJoins(frames, a, b[..|b| - 1], p);
    }
  }

  lemma {:induction false} RegionStackAt(regions: seq<CompositionRegion>, p: Point, n: nat, k: nat)
    requires n <= |regions|
    requires forall i, j :: 0 <= i < j < |regions| && regions[i].frame.Contains(p) ==> !regions[j].frame.Contains(p)
    requires k < |regions| ==> regions[k].frame.Contains(p)
    requires k >= |regions| ==> forall j :: 0 <= j < |regions| ==> !regions[j].frame.Contains(p)
    ensures RegionStack(regions, p, n) == if k < n then Reversed(regions[k].sources) else []
  {
    if n > 0 {
      hide Reversed;
      RegionStackAt(regions, p, n - 1, k);
    }
  }

  /** The precomposition shows, in z-order, exactly the layers it is meant to show. */
  lemma {:induction false} RegionStackMembers(frames: seq<Rect>, exclude: seq<Rect>, dedicated: seq<nat>,
                                              comp: seq<nat>, regions: seq<CompositionRegion>, p: Point)
    requires Punched(frames, exclude, dedicated, comp, regions) && !Excluded(exclude, p)
    ensures Ascending(RegionStack(regions, p, |regions|))
    ensures forall i :: i in RegionStack(regions, p, |regions|) <==> ShownByPrecomp(frames, dedicated, comp, p, i)
  {
    if k :| 0 <= k < |regions| && regions[k].frame.Contains(p) {
      RegionStackAt(regions, p, |regions|, k);
      ReversedMembers(regions[k].sources);
    } else {
      RegionStackAt(regions, p, |regions|, |regions|);
    }
  }

  // ----- painting a planned composition -----

  /** Dedicated planes first, the precomposition above them. */
  ghost function PaintedPlan(frames: seq<Rect>, dedicated: seq<nat>, regions: seq<CompositionRegion>,
                             p: Point): seq<nat> {
    DedicatedStack(frames, dedicated, p) + RegionStack(regions, p, |regions|)
  }

  lemma {:induction false} VisibleAbove(info: seq<Layer>, low: seq<nat>, high: seq<nat>)
    requires forall i :: i in high ==> !IsProtected(info, i)
    ensures Visible(info, low + high) == Visible(info, low) + high
  {
    if high != [] {
      var init, top := high[..|high| - 1], high[|high| - 1];
      assert high == init + [top];
      assert (low + high)[..|low + high| - 1] == low + init;
      VisibleAbove(info, low, init);
      assert Visible(info, low) + high == Visible(info, low) + init + [top];
    } else {
      assert low + high == low;
      assert Visible(info, low) + high == Visible(info, low);
    }
  }

  ghost predicate IsProtected(info: seq<Layer>, i: nat) {
    i < |info| && info[i].isProtected
  }

  /**
   * The dedicated layers are `rotated`, protected and placed from the top down, and then `upright`, placed from the
   * bottom up above all of them. A protected layer is precomposed only below the highest rotated one, and an
   * unprotected dedicated layer is below every precomposed one.
   */
  ghost predicate OrderedPlan(info: seq<Layer>, rotated: seq<nat>, upright: seq<nat>, comp: seq<nat>) {
    && Descending(rotated) && Ascending(upright)
    && (forall r :: r in rotated ==> IsProtected(info, r))
    && (forall r, d :: r in rotated && d in upright ==> r < d)
    && (forall i :: i in comp ==> i !in rotated && i !in upright)
    && (forall i :: i in comp && IsProtected(info, i) ==> rotated != [] && i < rotated[0])
    && (forall d, i :: d in upright && i in comp && !IsProtected(info, d) ==> d < i)
  }

  /** What the precomposition is meant to show at `p`. */
  ghost function Wanted(frames: seq<Rect>, dedicated: seq<nat>, comp: seq<nat>, p: Point): seq<nat> {
    FullStack(frames, (set i | i in comp && ShownByPrecomp(frames, dedicated, comp, p, i)), p)
  }

  ghost function AllPlaced(dedicated: seq<nat>, comp: seq<nat>): set<nat> {
    (set i | i in dedicated) + (set i | i in comp)
  }

  lemma {:induction false} WantedMembers(frames: seq<Rect>, dedicated: seq<nat>, comp: seq<nat>, p: Point)
    ensures Ascending(Wanted(frames, dedicated, comp, p))
    ensures forall i :: i in Wanted(frames, dedicated, comp, p) <==> ShownByPrecomp(frames, dedicated, comp, p, i)
  {
    FullStackMembers(frames, (set i | i in comp && ShownByPrecomp(frames, dedicated, comp, p, i)), p);
  }

  lemma {:induction false} FullStackMembers(frames: seq<Rect>, who: set<nat>, p: Point)
    ensures Ascending(FullStack(frames, who, p))
    ensures forall i :: i in FullStack(frames, who, p) <==> i in who && Covers(frames, i, p)
  {
    StackOfMembers(frames, who, p, |frames|);
  }

  // ----- one pixel -----

  /**
   * What is over one pixel: `low` and `mid` on dedicated planes, `cover` in the precomposition. The layers of `low` are
   * up to `mark`, those of `mid` above it.
   */
  ghost predicate Stacked(info: seq<Layer>, low: seq<nat>, mid: seq<nat>, cover: set<nat>, mark: int) {
    && Descending(low) && Ascending(mid)
    && (forall r :: r in low ==> IsProtected(info, r) && r <= mark)
    && (forall d :: d in mid ==> d > mark)
    && (forall i :: i in cover ==> i !in low && i !in mid && (IsProtected(info, i) ==> i < mark))
    && (forall d, i :: d in mid && i in cover && !IsProtected(info, d) ==> d < i)
  }

  ghost predicate NoneOver(low: seq<nat>, mid: seq<nat>, i: nat) {
    forall d :: d in low || d in mid ==> d <= i
  }

  /** `high` is what the precomposition shows, `full` the whole stack. */
  ghost predicate Stacks(low: seq<nat>, mid: seq<nat>, cover: set<nat>, high: seq<nat>, full: seq<nat>) {
    && Ascending(high) && Ascending(full)
    && (forall i :: i in high <==> i in cover && NoneOver(low, mid, i))
    && (forall i :: i in full <==> i in low || i in mid || i in cover)
  }

  /** Two layers of `low` in the stack `full`, and nothing protected above the higher one to hide them both. */
  ghost predicate Clash(info: seq<Layer>, low: seq<nat>, full: seq<nat>) {
    exists r, r' :: r in low && r' in low && r < r' && NothingProtectedOver(info, full, r')
  }

  ghost predicate NothingProtectedOver(info: seq<Layer>, full: seq<nat>, t: nat) {
    forall i :: i in full && IsProtected(info, i) ==> i <= t
  }

  /** From a protected layer with nothing protected above it, the stack is what can be seen. */
  lemma {:induction false} VisibleFrom(info: seq<Layer>, below: seq<nat>, t: nat, above: seq<nat>)
    requires IsProtected(info, t) && forall i :: i in above ==> !IsProtected(info, i)
    ensures Visible(info, below + [t] + above) == [t] + above
  {
    VisibleAbove(info, below + [t], above);
    assert (below + [t])[|below|] == t;
  }

  lemma {:induction false} VisibleWithAndWithout(info: seq<Layer>, below: seq<nat>, t: nat, over: seq<nat>,
                                                 high: seq<nat>)
    requires IsProtected(info, t) && forall i :: i in over + high ==> !IsProtected(info, i)
    ensures Visible(info, below + [t] + over + high) == [t] + (over + high)
    ensures Visible(info, below + [t] + over) == [t] + over
  {
    assert below + [t] + over + high == below + [t] + (over + high);
    VisibleFrom(info, below, t, over + high);
    VisibleFrom(info, below, t, over);
  }

  lemma {:induction false} VisibleAll(info: seq<Layer>, s: seq<nat>)
    requires forall i :: i in s ==> !IsProtected(info, i)
    ensures Visible(info, s) == s
  {
    VisibleAbove(info, [], s);
    assert [] + s == s;
  }

  lemma {:induction false} CutMembers(s: seq<nat>, below: seq<nat>, t: nat, above: seq<nat>)
    requires s == below + [t] + above
    requires forall j :: 0 <= j < |below| ==> below[j] < t
    requires forall j :: 0 <= j < |above| ==> above[j] > t
    ensures forall i :: i in above <==> i in s && i > t
  {
    assert forall i :: i in s <==> i in below || i == t || i in above;
  }

  /** An ascending stack, cut at one of its layers. */
  lemma {:induction false} CutAt(s: seq<nat>, t: nat) returns (below: seq<nat>, above: seq<nat>)
    requires Ascending(s) && t in s
    ensures s == below + [t] + above && Ascending(above)
    ensures forall i :: i in above <==> i in s && i > t
  {
    var k :| 0 <= k < |s| && s[k] == t;
    below, above := s[..k], s[k + 1..];
    forall j | 0 <= j < |below|
      ensures below[j] < t
    {
      assert below[j] == s[j];
    }
    forall j | 0 <= j < |above|
      ensures above[j] > t
    {
      assert above[j] == s[k + 1 + j];
    }
    CutMembers(s, below, t, above);
  }

  lemma {:induction false} JoinedAscends(a: seq<nat>, b: seq<nat>)
    requires Ascending(a) && Ascending(b) && forall i, j :: i in a && j in b ==> i < j
    ensures Ascending(a + b)
  {
    assert forall k :: 0 <= k < |a| ==> a[k] in a;
    assert forall k :: 0 <= k < |b| ==> b[k] in b;
  }

  /** The highest protected layer of a stack. */
  lemma {:induction false} HighestProtected(info: seq<Layer>, full: seq<nat>) returns (some: bool, t: nat)
    ensures some ==> t in full && IsProtected(info, t) && NothingProtectedOver(info, full, t)
    ensures !some ==> forall i :: i in full ==> !IsProtected(info, i)
  {
    if full == [] {
      some, t := false, 0;
    } else {
      some, t := HighestProtected(info, full[1..]);
      assert full == [full[0]] + full[1..];
      if IsProtected(info, full[0]) && (!some || full[0] > t) {
        some, t := true, full[0];
      }
    }
  }

  /**
   * Above the highest protected layer, unless it is precomposed, the
   * stack is the dedicated planes and then what the precomposition shows.
   */
  lemma {:induction false} UpperPart(info: seq<Layer>, low: seq<nat>, mid: seq<nat>, cover: set<nat>, high: seq<nat>,
                                     full: seq<nat>, mark: int, t: int, over: seq<nat>, above: seq<nat>)
    requires Stacked(info, low, mid, cover, mark) && Stacks(low, mid, cover, high, full)
    requires forall i :: i in full && IsProtected(info, i) ==> i <= t
    requires t in low || t in mid || t == -1
    requires Ascending(over) && forall i :: i in over <==> i in mid && i > t
    requires Ascending(above) && forall i :: i in above <==> i in full && i > t
    ensures above == over + high && forall i :: i in over + high ==> !IsProtected(info, i)
  {
    forall i | i in high
      ensures i > t && !IsProtected(info, i)
    {
      assert NoneOver(low, mid, i);
      assert i in full;
    }
    forall i | i in cover && i > t
      ensures i in high
    {
      forall d | d in low || d in mid
        ensures d <= i
      {
        assert d in full;
      }
    }
    forall i, j | i in over && j in high
      ensures i < j
    {
      assert i in full;
    }
    JoinedAscends(over, high);
    AscendingUnique(above, over + high);
  }

  lemma {:induction false} NoClash(info: seq<Layer>, low: seq<nat>, full: seq<nat>, t: nat)
    requires t in full && IsProtected(info, t) && forall r :: r in low ==> r < t
    ensures !Clash(info, low, full)
  {
    forall r, r' | r in low && r' in low && r < r'
      ensures !NothingProtectedOver(info, full, r')
    {
    }
  }

  /** What the two ways to show the pixel give: `painted` with the precomposition and `bare` without it. */
  ghost predicate PixelRight(info: seq<Layer>, low: seq<nat>, mid: seq<nat>, high: seq<nat>, full: seq<nat>) {
    && (Visible(info, low + mid + high) == Visible(info, full) <==> !Clash(info, low, full))
    && (Visible(info, low + mid) == Visible(info, full) <==> high == [] && !Clash(info, low, full))
  }

  lemma {:induction false} FirstIsMember(s: seq<nat>)
    ensures s == [] || s[0] in s
  {
  }

  lemma {:induction false} NoneProtected(info: seq<Layer>, low: seq<nat>, mid: seq<nat>, cover: set<nat>,
                                         high: seq<nat>, full: seq<nat>, mark: int)
    requires Stacked(info, low, mid, cover, mark) && Stacks(low, mid, cover, high, full)
    requires forall i :: i in full ==> !IsProtected(info, i)
    ensures PixelRight(info, low, mid, high, full)
  {
    FirstIsMember(low);
    assert low == [];
    UpperPart(info, low, mid, cover, high, full, mark, -1, mid, full);
    assert low + mid == mid;
    VisibleAll(info, mid);
    VisibleAll(info, mid + high);
    assert !Clash(info, low, full);
    assert high == [] ==> mid + high == mid;
  }

  lemma {:induction false} PrecomposedOnTop(info: seq<Layer>, low: seq<nat>, mid: seq<nat>, cover: set<nat>,
                                            high: seq<nat>, full: seq<nat>, mark: int, t: nat)
    requires Stacked(info, low, mid, cover, mark) && Stacks(low, mid, cover, high, full)
    requires t in cover && IsProtected(info, t) && NothingProtectedOver(info, full, t)
    ensures PixelRight(info, low, mid, high, full)
  {
    forall r | r in low
      ensures r < t
    {
      assert r in full;
    }
    NoClash(info, low, full, t);
    FirstIsMember(mid);
    assert mid == [];
    assert NoneOver(low, mid, t) && t in high;
    var below, above := CutAt(full, t);
    var below', above' := CutAt(high, t);
    forall i | i in full && i > t
      ensures i in high
    {
      assert NoneOver(low, mid, i);
    }
    AscendingUnique(above, above');
    VisibleFrom(info, below, t, above);
    assert low + mid + high == (low + mid + below') + [t] + above;
    VisibleFrom(info, low + mid + below', t, above);
    VisibleWithin(info, low + mid);
    assert t !in low + mid;
    assert ([t] + above)[0] == t;
  }

  lemma {:induction false} VisibleWithin(info: seq<Layer>, s: seq<nat>)
    ensures forall i :: i in Visible(info, s) ==> i in s
  {
    if s != [] {
      VisibleWithin(info, s[..|s| - 1]);
    }
  }

  lemma {:induction false} UprightOnTop(info: seq<Layer>, low: seq<nat>, mid: seq<nat>, cover: set<nat>, high: seq<nat>,
                                        full: seq<nat>, mark: int, t: nat)
    requires Stacked(info, low, mid, cover, mark) && Stacks(low, mid, cover, high, full)
    requires t in mid && IsProtected(info, t) && NothingProtectedOver(info, full, t)
    ensures PixelRight(info, low, mid, high, full)
  {
    NoClash(info, low, full, t);
    var below, above := CutAt(full, t);
    var below', over := CutAt(mid, t);
    UpperPart(info, low, mid, cover, high, full, mark, t, over, above);
    hide *;
    VisibleFrom(info, below, t, above);
    assert low + mid == (low + below') + [t] + over;
    VisibleWithAndWithout(info, low + below', t, over, high);
    SameFirst(t, t, over, high);
  }

  lemma {:induction false} SameFirst(x: nat, t: nat, mid: seq<nat>, high: seq<nat>)
    ensures [x] + (mid + high) == [t] + (mid + high) <==> x == t
    ensures [x] + mid == [t] + (mid + high) <==> x == t && high == []
  {
    assert ([x] + (mid + high))[0] == x && ([t] + (mid + high))[0] == t && ([x] + mid)[0] == x;
    assert |[t] + (mid + high)| == |[x] + mid| + |high|;
    assert high == [] ==> mid + high == mid;
  }

  lemma {:induction false} RotatedOnTop(info: seq<Layer>, low: seq<nat>, mid: seq<nat>, cover: set<nat>, high: seq<nat>,
                                        full: seq<nat>, mark: int, t: nat)
    requires Stacked(info, low, mid, cover, mark) && Stacks(low, mid, cover, high, full)
    requires t in low && IsProtected(info, t) && NothingProtectedOver(info, full, t)
    ensures PixelRight(info, low, mid, high, full)
  {
    var init, last := low[..|low| - 1], low[|low| - 1];
    HighestIsFirst(info, low, full, t);
    var below, above := CutAt(full, t);
    UpperPart(info, low, mid, cover, high, full, mark, t, mid, above);
    hide *;
    VisibleFrom(info, below, t, above);
    assert low == init + [last];
    VisibleWithAndWithout(info, init, last, mid, high);
    SameFirst(last, t, mid, high);
  }

  lemma {:induction false} HighestIsFirst(info: seq<Layer>, low: seq<nat>, full: seq<nat>, t: nat)
    requires Descending(low) && t in low && NothingProtectedOver(info, full, t)
    requires forall r :: r in low ==> IsProtected(info, r) && r in full
    ensures low[0] == t && IsProtected(info, low[|low| - 1])
    ensures low[|low| - 1] == t <==> !Clash(info, low, full)
  {
    var last := low[|low| - 1];
    assert last in low && low[0] in low && low[0] in full;
    assert low[0] == t;
    if |low| == 1 {
      assert forall r :: r in low ==> r == t;
    }
  }

  /**
   * The planes show the stack exactly where no two rotated layers clash; without the regions of the precomposition,
   * exactly where it also has nothing to show.
   */
  lemma {:induction false} PixelLaw(info: seq<Layer>, low: seq<nat>, mid: seq<nat>, cover: set<nat>, high: seq<nat>,
                                    full: seq<nat>, mark: int)
    requires Stacked(info, low, mid, cover, mark) && Stacks(low, mid, cover, high, full)
    ensures PixelRight(info, low, mid, high, full)
  {
    hide Stacked, PixelRight, Ascending;
    var some, t := HighestProtected(info, full);
    if !some {
      NoneProtected(info, low, mid, cover, high, full, mark);
    } else if t in cover {
      PrecomposedOnTop(info, low, mid, cover, high, full, mark, t);
    } else if t in mid {
      UprightOnTop(info, low, mid, cover, high, full, mark, t);
    } else {
      RotatedOnTop(info, low, mid, cover, high, full, mark, t);
    }
  }

  // ----- a planned composition at one pixel -----

  /** Two rotated layers cover the pixel, and no protected layer above the higher one that is placed does. */
  ghost predicate ClashAt(info: seq<Layer>, rotated: seq<nat>, placed: set<nat>, p: Point) {
    exists r, r' :: r in rotated && r' in rotated && r < r' && Covers(Frames(info), r, p) && Covers(Frames(info), r', p)
                    && NothingProtectedAt(info, placed, p, r')
  }

  ghost predicate NothingProtectedAt(info: seq<Layer>, placed: set<nat>, p: Point, t: nat) {
    forall i :: i in placed && Covers(Frames(info), i, p) && IsProtected(info, i) ==> i <= t
  }

  lemma {:induction false} ClashMeans(info: seq<Layer>, rotated: seq<nat>, placed: set<nat>, p: Point, low: seq<nat>,
                                      full: seq<nat>)
    requires forall i :: i in low <==> i in rotated && Covers(Frames(info), i, p)
    requires forall i :: i in full <==> i in placed && Covers(Frames(info), i, p)
    ensures ClashAt(info, rotated, placed, p) <==> Clash(info, low, full)
  {
    hide Covers;
    assert forall t :: NothingProtectedAt(info, placed, p, t) <==> NothingProtectedOver(info, full, t);
  }

  lemma {:induction false} PlanIsStacked(info: seq<Layer>, rotated: seq<nat>, upright: seq<nat>, comp: seq<nat>,
                                         low: seq<nat>, mid: seq<nat>, cover: set<nat>)
    requires OrderedPlan(info, rotated, upright, comp) && Descending(low) && Ascending(mid)
    requires (forall i :: i in low ==> i in rotated) && (forall i :: i in mid ==> i in upright)
             && forall i :: i in cover ==> i in comp
    ensures Stacked(info, low, mid, cover, Mark(rotated))
  {
    FirstIsMember(rotated);
    forall r | r in low
      ensures r <= Mark(rotated)
    {
      var k :| 0 <= k < |rotated| && rotated[k] == r;
    }
  }

  /** The parts of the picture at `p` and what they are made of. */
  lemma {:induction false} PixelParts(info: seq<Layer>, rotated: seq<nat>, upright: seq<nat>, comp: seq<nat>, p: Point)
    requires OrderedPlan(info, rotated, upright, comp)
    ensures var frames := Frames(info);
            var low, mid := DedicatedStack(frames, rotated, p), DedicatedStack(frames, upright, p);
            var full := FullStack(frames, AllPlaced(rotated + upright, comp), p);
            && PixelRight(info, low, mid, Wanted(frames, rotated + upright, comp, p), full)
            && (Clash(info, low, full) <==> ClashAt(info, rotated, AllPlaced(rotated + upright, comp), p))
            && DedicatedStack(frames, rotated + upright, p) == low + mid
  {
    var frames, dedicated := Frames(info), rotated + upright;
    var low, mid := DedicatedStack(frames, rotated, p), DedicatedStack(frames, upright, p);
    var high, full := Wanted(frames, dedicated, comp, p), FullStack(frames, AllPlaced(dedicated, comp), p);
    var cover := set i | i in comp && Covers(frames, i, p);
    assert Descending(rotated) && Ascending(upright);
    DedicatedStackMembers(frames, rotated, p);
    DedicatedStackMembers(frames, upright, p);
    DedicatedStackOrder(frames, rotated, p);
    DedicatedStackOrder(frames, upright, p);
    DedicatedStackJoins(frames, rotated, upright, p);
    WantedMembers(frames, dedicated, comp, p);
    FullStackMembers(frames, AllPlaced(dedicated, comp), p);
    assert forall i :: i in dedicated <==> i in rotated || i in upright;
    PixelMembers(frames, rotated, upright, comp, p, low, mid, high, full, cover);
    hide *;
    PlanIsStacked(info, rotated, upright, comp, low, mid, cover);
    PixelLaw(info, low, mid, cover, high, full, Mark(rotated));
    ClashMeans(info, rotated, AllPlaced(dedicated, comp), p, low, full);
  }

  lemma {:induction false} PixelMembers(frames: seq<Rect>, rotated: seq<nat>, upright: seq<nat>, comp: seq<nat>,
                                        p: Point, low: seq<nat>, mid: seq<nat>, high: seq<nat>, full: seq<nat>,
                                        cover: set<nat>)
    requires Ascending(high) && Ascending(full)
    requires forall i :: i in low <==> i in rotated && Covers(frames, i, p)
    requires forall i :: i in mid <==> i in upright && Covers(frames, i, p)
    requires forall i :: i in cover <==> i in comp && Covers(frames, i, p)
    requires forall i :: i in high <==> ShownByPrecomp(frames, rotated + upright, comp, p, i)
    requires forall i :: i in full <==> i in AllPlaced(rotated + upright, comp) && Covers(frames, i, p)
    ensures Stacks(low, mid, cover, high, full)
  {
    assert forall i :: i in rotated + upright <==> i in rotated || i in upright;
    forall i
      ensures i in high <==> i in cover && NoneOver(low, mid, i)
    {
    }
  }

  /**
   * At a pixel outside the excluded regions the planes show what painting all placed layers in z-order would show,
   * exactly when no two rotated protected layers clash there.
   */
  lemma {:induction false} PlanShowsStack(info: seq<Layer>, exclude: seq<Rect>, rotated: seq<nat>, upright: seq<nat>,
                                          comp: seq<nat>, regions: seq<CompositionRegion>, p: Point)
    requires Punched(Frames(info), exclude, rotated + upright, comp, regions) && !Excluded(exclude, p)
    requires OrderedPlan(info, rotated, upright, comp)
    ensures Visible(info, PaintedPlan(Frames(info), rotated + upright, regions, p))
         == Visible(info, FullStack(Frames(info), AllPlaced(rotated + upright, comp), p))
       <==> !ClashAt(info, rotated, AllPlaced(rotated + upright, comp), p)
  {
    hide OrderedPlan, Punched, Excluded, Visible, FullStack, AllPlaced, ClashAt, Clash, DedicatedStack, RegionStack,
         Wanted, Ascending;
    var frames := Frames(info);
    PixelParts(info, rotated, upright, comp, p);
    WantedMembers(frames, rotated + upright, comp, p);
    RegionStackMembers(frames, exclude, rotated + upright, comp, regions, p);
    AscendingUnique(RegionStack(regions, p, |regions|), Wanted(frames, rotated + upright, comp, p));
  }

  /**
   * Without any precomposition regions the picture is right exactly
   * where, in addition, the precomposition had nothing to show.
   */
  lemma {:induction false} NoRegionsShowStack(info: seq<Layer>, rotated: seq<nat>, upright: seq<nat>, comp: seq<nat>,
                                              p: Point)
    requires OrderedPlan(info, rotated, upright, comp)
    ensures Visible(info, PaintedPlan(Frames(info), rotated + upright, [], p))
         == Visible(info, FullStack(Frames(info), AllPlaced(rotated + upright, comp), p))
       <==> (forall i :: !ShownByPrecomp(Frames(info), rotated + upright, comp, p, i))
            && !ClashAt(info, rotated, AllPlaced(rotated + upright, comp), p)
  {
    hide OrderedPlan, Visible, FullStack, AllPlaced, ClashAt, Clash, DedicatedStack, Wanted, ShownByPrecomp, Ascending;
    var frames := Frames(info);
    var wanted := Wanted(frames, rotated + upright, comp, p);
    PixelParts(info, rotated, upright, comp, p);
    WantedMembers(frames, rotated + upright, comp, p);
    FirstIsMember(wanted);
    assert DedicatedStack(frames, rotated + upright, p) + [] == DedicatedStack(frames, rotated + upright, p);
  }
}
