/** The line sweep that cuts overlapping rectangles into disjoint ones, each tagged with the set of inputs over it. */
module SeparateRects {
  import opened Geometry

  const MAX_ELEMENTS: nat := 64

  datatype RectSet = RectSet(ids: set<nat>, rect: Rect)

  ghost predicate Covered(out: seq<RectSet>, p: Point) {
    exists k :: 0 <= k < |out| && out[k].rect.Contains(p)
  }

  ghost predicate PairwiseDisjoint(out: seq<RectSet>) {
    forall j, k, p :: 0 <= j < k < |out| && out[j].rect.Contains(p) ==> !out[k].rect.Contains(p)
  }

  ghost predicate ExactIds(input: seq<Rect>, out: seq<RectSet>) {
    forall k, p :: 0 <= k < |out| && out[k].rect.Contains(p) ==> out[k].ids == IdsAt(input, p)
  }

  /** The contract stated in the header: disjoint, covering the same points, with exact id sets. */
  ghost predicate Separates(input: seq<Rect>, out: seq<RectSet>) {
    && (forall k :: 0 <= k < |out| ==> !out[k].rect.Empty())
    && PairwiseDisjoint(out)
    && ExactIds(input, out)
    && (forall p :: IdsAt(input, p) != {} <==> Covered(out, p))
  }

  // ----- ordered event sets -----

  datatype EventKind = Start | End

  datatype Event = Event(kind: EventKind, at: int, id: nat)

  /** The kind of an event plays no part in the order, so two events with one position and one id are the same key. */
  predicate Before(a: Event, b: Event) {
    a.at < b.at || (a.at == b.at && a.id < b.id)
  }

  ghost predicate Ordered(s: seq<Event>) {
    forall i, j :: 0 <= i < j < |s| ==> Before(s[i], s[j])
  }

  /** Insertion into the ordered set; nothing happens when the key is taken. */
  function Insert(s: seq<Event>, e: Event): (r: seq<Event>)
    requires Ordered(s)
    ensures Ordered(r)
    ensures forall f :: f in r ==> f in s || f == e
    ensures forall f :: f in s ==> f in r
    ensures (forall f :: f in s ==> Before(f, e) || Before(e, f)) ==> e in r
  {
    if s == [] then [e]
    else if Before(e, s[0]) then [e] + s
    else if Before(s[0], e) then
      assert s == [s[0]] + s[1..];
      var rest := Insert(s[1..], e);
      assert forall f :: f in rest ==> Before(s[0], f);
      [s[0]] + rest
    else s
  }

  /** Removal of the entry with the key of `e`. */
  function Remove(s: seq<Event>, e: Event): (r: seq<Event>)
    requires Ordered(s)
    ensures Ordered(r)
    ensures forall f :: f in r <==> f in s && (Before(f, e) || Before(e, f))
  {
    if s == [] then []
    else
      assert s == [s[0]] + s[1..];
      if Before(s[0], e) || Before(e, s[0]) then [s[0]] + Remove(s[1..], e) else s[1..]
  }

  /** At a position between two consecutive events, the events passed are exactly those at or before it. */
  lemma {:induction false} PassedEvents(s: seq<Event>, k: nat, at: int, e: Event)
    requires Ordered(s) && k <= |s| && e in s
    requires k == 0 || s[k - 1].at <= at
    requires k == |s| || at < s[k].at
    ensures e in s[..k] <==> e.at <= at
  {
    var i :| 0 <= i < |s| && s[i] == e;
    if i < k {
      assert s[..k][i] == e;
      assert i == k - 1 || Before(s[i], s[k - 1]);
    } else {
      assert i == k || Before(s[k], s[i]);
    }
  }

  // ----- sweeping from left to right -----

  ghost predicate Relevant(input: seq<Rect>, i: nat) {
    i < |input| && !input[i].Empty()
  }

  ghost predicate IsHorizontalEvent(input: seq<Rect>, e: Event) {
    Relevant(input, e.id) && e.at == (if e.kind == Start then input[e.id].left else input[e.id].right)
  }

  ghost predicate IsVerticalEvent(input: seq<Rect>, active: set<nat>, e: Event) {
    && e.id in active && Relevant(input, e.id)
    && e.at == (if e.kind == Start then input[e.id].top else input[e.id].bottom)
  }

  /** The rectangles whose start has been passed after `k` horizontal events and whose end has not. */
  ghost function ActiveAfter(input: seq<Rect>, events: seq<Event>, k: nat): set<nat>
    requires k <= |events|
  {
    set i: nat | i < |input| && Relevant(input, i)
      && Event(Start, input[i].left, i) in events[..k] && Event(End, input[i].right, i) !in events[..k]
  }

  ghost predicate HorizontalEvents(input: seq<Rect>, events: seq<Event>) {
    Ordered(events) && forall e :: e in events <==> IsHorizontalEvent(input, e)
  }

  ghost predicate VerticalEvents(input: seq<Rect>, active: set<nat>, events: seq<Event>) {
    Ordered(events) && forall e :: e in events <==> IsVerticalEvent(input, active, e)
  }

  method CollectEvents(input: seq<Rect>) returns (events: seq<Event>)
    ensures HorizontalEvents(input, events)
  {
    events := [];
    for i := 0 to |input|
      invariant Ordered(events)
      invariant forall e :: e in events <==> e.id < i && IsHorizontalEvent(input, e)
    {
      if input[i].left >= input[i].right || input[i].top >= input[i].bottom {
        continue;
      }
      events := Insert(events, Event(Start, input[i].left, i));
      events := Insert(events, Event(End, input[i].right, i));
    }
  }

  /** Events with distinct keys stand in the order of their keys. */
  lemma {:induction false} KeyOrder(s: seq<Event>, i: nat, j: nat)
    requires Ordered(s) && i < |s| && j < |s|
    ensures i < j ==> Before(s[i], s[j])
    ensures j < i ==> Before(s[j], s[i])
  {
  }

  lemma {:induction false} NotPassedYet(s: seq<Event>, k: nat, e: Event)
    requires Ordered(s) && 0 < k <= |s| && Before(s[k - 1], e)
    ensures e !in s[..k]
  {
    forall i | 0 <= i < k
      ensures s[i] != e
    {
      KeyOrder(s, i, k - 1);
    }
  }

  /** Passing one event adds or drops one rectangle. */
  lemma {:induction false} ActiveStep(input: seq<Rect>, events: seq<Event>, k: nat)
    requires HorizontalEvents(input, events) && k < |events|
    ensures events[k].kind == Start ==>
              events[k].id !in ActiveAfter(input, events, k)
              && ActiveAfter(input, events, k + 1) == ActiveAfter(input, events, k) + {events[k].id}
    ensures events[k].kind == End ==>
              events[k].id in ActiveAfter(input, events, k)
              && ActiveAfter(input, events, k + 1) == ActiveAfter(input, events, k) - {events[k].id}
  {
    var e := events[k];
    assert events[..k + 1] == events[..k] + [e];
    assert e in events;
    if k > 0 {
      KeyOrder(events, k - 1, k);
      NotPassedYet(events, k, e);
    }
    if e.kind == Start {
      NotPassedYet(events, k + 1, Event(End, input[e.id].right, e.id));
    } else {
      var start := Event(Start, input[e.id].left, e.id);
      assert start in events;
      var s :| 0 <= s < |events| && events[s] == start;
      KeyOrder(events, s, k);
      assert events[..k][s] == start;
    }
  }

  /** Between two stops the active rectangles are those whose horizontal span holds the sweep position. */
  lemma {:induction false} ActiveAtStop(input: seq<Rect>, events: seq<Event>, k: nat, x: int)
    requires HorizontalEvents(input, events) && k <= |events|
    requires k == 0 || events[k - 1].at <= x
    requires k == |events| || x < events[k].at
    ensures forall i: nat :: i in ActiveAfter(input, events, k) <==>
              Relevant(input, i) && input[i].left <= x < input[i].right
  {
    forall i: nat | Relevant(input, i)
      ensures i in ActiveAfter(input, events, k) <==> input[i].left <= x < input[i].right
    {
      var start, end := Event(Start, input[i].left, i), Event(End, input[i].right, i);
      assert IsHorizontalEvent(input, start) && IsHorizontalEvent(input, end);
      PassedEvents(events, k, x, start);
      PassedEvents(events, k, x, end);
    }
  }

  // ----- the vertical cross section -----

  /** From `y` down to the next edge, the rectangles in `ids` cross the sweep line. */
  datatype Edge = Edge(y: int, ids: set<nat>)

  ghost function SliceIds(input: seq<Rect>, active: set<nat>, y: int): set<nat> {
    set i | i in active && i < |input| && input[i].top <= y < input[i].bottom
  }

  ghost predicate CrossSection(input: seq<Rect>, active: set<nat>, edges: seq<Edge>) {
    && EdgesRight(input, active, edges)
    && (edges != [] ==> edges[|edges| - 1].ids == {})
    && (forall y :: edges == [] || y < edges[0].y || edges[|edges| - 1].y <= y ==> SliceIds(input, active, y) == {})
  }

  ghost function Opened(input: seq<Rect>, active: set<nat>, events: seq<Event>, k: nat): set<nat>
    requires k <= |events|
  {
    set i | i in active && i < |input|
      && Event(Start, input[i].top, i) in events[..k] && Event(End, input[i].bottom, i) !in events[..k]
  }

  lemma {:induction false} OpenedIsSlice(input: seq<Rect>, active: set<nat>, events: seq<Event>, k: nat, y: int)
    requires VerticalEvents(input, active, events) && k <= |events|
    requires forall i :: i in active ==> Relevant(input, i)
    requires k == 0 || events[k - 1].at <= y
    requires k == |events| || y < events[k].at
    ensures Opened(input, active, events, k) == SliceIds(input, active, y)
  {
    forall i | i in active
      ensures i in Opened(input, active, events, k) <==> input[i].top <= y < input[i].bottom
    {
      var start, end := Event(Start, input[i].top, i), Event(End, input[i].bottom, i);
      assert IsVerticalEvent(input, active, start) && IsVerticalEvent(input, active, end);
      PassedEvents(events, k, y, start);
      PassedEvents(events, k, y, end);
    }
  }

  lemma {:induction false} OpenedStep(input: seq<Rect>, active: set<nat>, events: seq<Event>, k: nat)
    requires VerticalEvents(input, active, events) && k < |events|
    requires forall i :: i in active ==> Relevant(input, i)
    ensures Opened(input, active, events, k + 1)
         == if events[k].kind == Start then Opened(input, active, events, k) + {events[k].id}
                                       else Opened(input, active, events, k) - {events[k].id}
  {
    var e := events[k];
    assert events[..k + 1] == events[..k] + [e];
    assert e in events;
    if e.kind == Start {
      NotPassedYet(events, k + 1, Event(End, input[e.id].bottom, e.id));
    }
  }

  method BuildCrossSection(input: seq<Rect>, ghost active: set<nat>, events: seq<Event>) returns (edges: seq<Edge>)
    requires VerticalEvents(input, active, events)
    requires forall i :: i in active ==> Relevant(input, i)
    ensures CrossSection(input, active, edges)
  {
    hide VerticalEvents, Opened, SliceIds, Before;
    edges := [];
    var activeSet: set<nat> := {};
    NothingOpenAtStart(input, active, events);
    for k := 0 to |events|
      invariant activeSet == Opened(input, active, events, k)
      invariant edges == [] <==> k == 0
      invariant k > 0 ==> edges[0].y == events[0].at && edges[|edges| - 1] == Edge(events[k - 1].at, activeSet)
      invariant EdgesRight(input, active, edges)
    {
      ghost var before := activeSet;
      OpenedStep(input, active, events, k);
      VerticalOrder(input, active, events, k);
      var e := events[k];
      if e.kind == Start {
        activeSet := activeSet + {e.id};
      } else {
        activeSet := activeSet - {e.id};
      }
      if |edges| > 0 && edges[|edges| - 1].y == e.at {
        edges := edges[..|edges| - 1] + [Edge(e.at, activeSet)];
      } else {
        forall y | k > 0 && edges[|edges| - 1].y <= y < e.at
          ensures SliceIds(input, active, y) == before
        {
          OpenedIsSlice(input, active, events, k, y);
        }
        edges := edges + [Edge(e.at, activeSet)];
      }
    }
    NothingOpenAtEnd(input, active, events);
    forall y | edges == [] || y < edges[0].y || edges[|edges| - 1].y <= y
      ensures SliceIds(input, active, y) == {}
    {
      if edges == [] || y < edges[0].y {
        OpenedIsSlice(input, active, events, 0, y);
      } else {
        OpenedIsSlice(input, active, events, |events|, y);
      }
    }
  }

  /** Edges from the top down, each with the rectangles active until the next one. */
  ghost predicate EdgesRight(input: seq<Rect>, active: set<nat>, edges: seq<Edge>) {
    && (forall j, l :: 0 <= j < l < |edges| ==> edges[j].y < edges[l].y)
    && (forall j, y :: 0 <= j < |edges| - 1 && edges[j].y <= y < edges[j + 1].y ==>
          SliceIds(input, active, y) == edges[j].ids)
  }

  lemma {:induction false} NothingOpenAtStart(input: seq<Rect>, active: set<nat>, events: seq<Event>)
    ensures Opened(input, active, events, 0) == {}
  {
  }

  lemma {:induction false} VerticalOrder(input: seq<Rect>, active: set<nat>, events: seq<Event>, k: nat)
    requires VerticalEvents(input, active, events) && k < |events|
    ensures k > 0 ==> events[k - 1].at <= events[k].at
  {
    assert k > 0 ==> Before(events[k - 1], events[k]);
  }

  lemma {:induction false} NothingOpenAtEnd(input: seq<Rect>, active: set<nat>, events: seq<Event>)
    requires VerticalEvents(input, active, events)
    requires forall i :: i in active ==> Relevant(input, i)
    ensures Opened(input, active, events, |events|) == {}
  {
    assert events[..|events|] == events;
    forall i | i in active
      ensures i !in Opened(input, active, events, |events|)
    {
      assert IsVerticalEvent(input, active, Event(End, input[i].bottom, i));
    }
  }

  // ----- started rectangles -----

  /** The key of a started rectangle: everything but its left edge. */
  datatype Band = Band(ids: set<nat>, top: int, bottom: int)

  datatype Progress = Progress(left: int, seen: bool)

  ghost predicate InStrip(b: Band, left: int, x: int, p: Point) {
    left <= p.x < x && b.top <= p.y < b.bottom
  }

  ghost predicate InSomeStrip(started: map<Band, Progress>, x: int, p: Point) {
    exists b :: b in started && InStrip(b, started[b].left, x, p)
  }

  /** Finished rectangles and started strips, cut at `x`, separate the part of the plane left of `x`. */
  ghost predicate SweptTo(input: seq<Rect>, out: seq<RectSet>, started: map<Band, Progress>, x: int) {
    && (forall k :: 0 <= k < |out| ==> !out[k].rect.Empty() && out[k].rect.right <= x)
    && PairwiseDisjoint(out)
    && ExactIds(input, out)
    && (forall b :: b in started ==> b.top < b.bottom && started[b].left <= x)
    && (forall b, p :: b in started && InStrip(b, started[b].left, x, p) ==>
          b.ids == IdsAt(input, p) && !Covered(out, p))
    && (forall b, c, p :: b in started && c in started && b != c && InStrip(b, started[b].left, x, p) ==>
          !InStrip(c, started[c].left, x, p))
    && (forall p: Point :: p.x < x && IdsAt(input, p) != {} ==> Covered(out, p) || InSomeStrip(started, x, p))
    && (forall p :: Covered(out, p) || InSomeStrip(started, x, p) ==> IdsAt(input, p) != {})
  }

  ghost predicate InBand(b: Band, y: int) {
    b.top <= y < b.bottom
  }

  /** The bands are exactly the cells of the cross section at `x`. */
  ghost predicate SectionAt(input: seq<Rect>, bands: set<Band>, x: int) {
    && (forall b :: b in bands ==> b.top < b.bottom && b.ids != {})
    && (forall b, y :: b in bands && InBand(b, y) ==> b.ids == IdsAt(input, Point(x, y)))
    && (forall y :: IdsAt(input, Point(x, y)) != {} ==> exists b :: b in bands && InBand(b, y))
    && (forall b, c, y :: b in bands && c in bands && b != c && InBand(b, y) ==> !InBand(c, y))
  }

  /** Nothing changes between stops, so the strips can be carried on to the next one. */
  lemma {:induction false} CarryOn(input: seq<Rect>, out: seq<RectSet>, started: map<Band, Progress>, x: int, next: int)
    requires SweptTo(input, out, started, x) && SectionAt(input, started.Keys, x) && x < next
    requires forall p: Point :: x <= p.x < next ==> IdsAt(input, p) == IdsAt(input, Point(x, p.y))
    ensures SweptTo(input, out, started, next)
  {
    forall b, p | b in started && InStrip(b, started[b].left, next, p)
      ensures b.ids == IdsAt(input, p) && !Covered(out, p)
    {
      if p.x < x {
        assert InStrip(b, started[b].left, x, p);
      } else {
        assert InBand(b, p.y);
      }
    }
    forall b, c, p | b in started && c in started && b != c && InStrip(b, started[b].left, next, p)
      ensures !InStrip(c, started[c].left, next, p)
    {
      if p.x < x {
        assert InStrip(b, started[b].left, x, p);
        assert !InStrip(c, started[c].left, x, p);
      } else {
        assert InBand(b, p.y);
        assert !InBand(c, p.y);
      }
    }
    forall p: Point | p.x < next && IdsAt(input, p) != {}
      ensures Covered(out, p) || InSomeStrip(started, next, p)
    {
      if p.x < x {
        if InSomeStrip(started, x, p) {
          var b :| b in started && InStrip(b, started[b].left, x, p);
          assert InStrip(b, started[b].left, next, p);
        }
      } else {
        var b :| b in started.Keys && InBand(b, p.y);
        assert InStrip(b, started[b].left, next, p);
      }
    }
    forall p | InSomeStrip(started, next, p)
      ensures IdsAt(input, p) != {}
    {
      var b :| b in started && InStrip(b, started[b].left, next, p);
      assert b in started.Keys;
    }
  }

  /** Turning one strip that ends at `x` into an output rectangle keeps the picture left of `x`. */
  lemma {:induction false} FinishOne(input: seq<Rect>, out: seq<RectSet>, started: map<Band, Progress>, x: int, b: Band)
    requires SweptTo(input, out, started, x) && b in started && started[b].left < x
    ensures SweptTo(input, out + [RectSet(b.ids, Rect(started[b].left, b.top, x, b.bottom))], started - {b}, x)
  {
    var done := RectSet(b.ids, Rect(started[b].left, b.top, x, b.bottom));
    var out' := out + [done];
    var rest := started - {b};
    forall p
      ensures done.rect.Contains(p) <==> InStrip(b, started[b].left, x, p)
      ensures Covered(out', p) <==> Covered(out, p) || InStrip(b, started[b].left, x, p)
      ensures InSomeStrip(started, x, p) <==> InSomeStrip(rest, x, p) || InStrip(b, started[b].left, x, p)
    {
      if Covered(out, p) {
        var k :| 0 <= k < |out| && out[k].rect.Contains(p);
        assert out'[k].rect.Contains(p);
      }
      if done.rect.Contains(p) {
        assert out'[|out|].rect.Contains(p);
      }
      if InSomeStrip(started, x, p) && !InStrip(b, started[b].left, x, p) {
        var c :| c in started && InStrip(c, started[c].left, x, p);
        assert c in rest;
      }
    }
    forall j, k, p | 0 <= j < k < |out'| && out'[j].rect.Contains(p)
      ensures !out'[k].rect.Contains(p)
    {
      if k == |out| {
        assert Covered(out, p) by { assert out[j].rect.Contains(p); }
      }
    }
    forall k, p | 0 <= k < |out'| && out'[k].rect.Contains(p)
      ensures out'[k].ids == IdsAt(input, p)
    {
      if k == |out| { assert InStrip(b, started[b].left, x, p); }
    }
  }

  /** Marks do not matter, and a strip that starts at `x` holds nothing yet. */
  lemma {:induction false} MarkingKeepsPicture(input: seq<Rect>, out: seq<RectSet>, before: map<Band, Progress>,
                                               after: map<Band, Progress>, x: int)
    requires SweptTo(input, out, before, x)
    requires before.Keys <= after.Keys
    requires forall b :: b in after ==> b.top < b.bottom && after[b].left == if b in before then before[b].left else x
    ensures SweptTo(input, out, after, x)
  {
    forall b, p | b in after && InStrip(b, after[b].left, x, p)
      ensures b in before && InStrip(b, before[b].left, x, p)
    {
    }
    forall p
      ensures InSomeStrip(after, x, p) <==> InSomeStrip(before, x, p)
    {
      if InSomeStrip(before, x, p) {
        var c :| c in before && InStrip(c, before[c].left, x, p);
        assert c in after && InStrip(c, after[c].left, x, p);
      }
      if InSomeStrip(after, x, p) {
        var c :| c in after && InStrip(c, after[c].left, x, p);
        assert c in before && InStrip(c, before[c].left, x, p);
      }
    }
    forall b, c, p | b in after && c in after && b != c && InStrip(b, after[b].left, x, p)
      ensures !InStrip(c, after[c].left, x, p)
    {
      assert b in before && InStrip(b, before[b].left, x, p);
    }
  }

  /** The bands named by the first `n` edges of a cross section. */
  ghost function Bands(edges: seq<Edge>, n: nat): set<Band>
    requires n < |edges| || n == 0
  {
    set j | 0 <= j < n && edges[j].ids != {} :: Band(edges[j].ids, edges[j].y, edges[j + 1].y)
  }

  lemma {:induction false} EdgeBelow(edges: seq<Edge>, y: int) returns (j: nat)
    requires |edges| > 1 && edges[0].y <= y < edges[|edges| - 1].y
    ensures j < |edges| - 1 && edges[j].y <= y < edges[j + 1].y
    decreases |edges|
  {
    var n := |edges|;
    if edges[n - 2].y <= y {
      j := n - 2;
    } else {
      j := EdgeBelow(edges[..n - 1], y);
    }
  }

  lemma {:induction false} BandsAreSection(input: seq<Rect>, active: set<nat>, edges: seq<Edge>, x: int)
    requires CrossSection(input, active, edges)
    requires forall y :: SliceIds(input, active, y) == IdsAt(input, Point(x, y))
    ensures SectionAt(input, Bands(edges, CellCount(edges)), x)
  {
    var n := CellCount(edges);
    var bands := Bands(edges, n);
    forall b, y | b in bands && InBand(b, y)
      ensures b.ids == IdsAt(input, Point(x, y))
    {
      assert SliceIds(input, active, y) == IdsAt(input, Point(x, y));
    }
    forall y | IdsAt(input, Point(x, y)) != {}
      ensures exists b :: b in bands && InBand(b, y)
    {
      assert SliceIds(input, active, y) == IdsAt(input, Point(x, y));
      assert |edges| > 1;
      var j := EdgeBelow(edges, y);
      var b := Band(edges[j].ids, edges[j].y, edges[j + 1].y);
      assert b in bands && InBand(b, y);
    }
    forall b, c, y | b in bands && c in bands && b != c && InBand(b, y)
      ensures !InBand(c, y)
    {
      BandsDoNotMeet(input, active, edges, b, c, y);
    }
  }

  lemma {:induction false} BandsDoNotMeet(input: seq<Rect>, active: set<nat>, edges: seq<Edge>, b: Band, c: Band,
                                          y: int)
    requires CrossSection(input, active, edges)
    requires b in Bands(edges, CellCount(edges)) && c in Bands(edges, CellCount(edges)) && b != c && InBand(b, y)
    ensures !InBand(c, y)
  {
    var n := CellCount(edges);
    var j :| 0 <= j < n && edges[j].ids != {} && b == Band(edges[j].ids, edges[j].y, edges[j + 1].y);
    var k :| 0 <= k < n && edges[k].ids != {} && c == Band(edges[k].ids, edges[k].y, edges[k + 1].y);
    assert j < k ==> edges[j + 1].y <= edges[k].y;
    assert k < j ==> edges[k + 1].y <= edges[j].y;
  }

  ghost function CellCount(edges: seq<Edge>): nat {
    if edges == [] then 0 else |edges| - 1
  }

  /** Continues the started rectangles the cross section still shows and starts the others at `x`. */
  method MarkBands(edges: seq<Edge>, x: int, begun: map<Band, Progress>) returns (started: map<Band, Progress>)
    requires edges != [] ==> edges[|edges| - 1].ids == {}
    requires forall b :: b in begun ==> !begun[b].seen
    ensures started.Keys == begun.Keys + Bands(edges, CellCount(edges))
    ensures forall b :: b in started ==> (started[b].seen <==> b in Bands(edges, CellCount(edges)))
    ensures forall b :: b in started ==> started[b].left == if b in begun then begun[b].left else x
  {
    started := begun;
    var j := 0;
    ghost var cells := 0;
    while j < |edges|
      invariant j <= |edges| && cells == if j < |edges| then j else CellCount(edges)
      invariant started.Keys == begun.Keys + Bands(edges, cells)
      invariant forall b :: b in started ==> (started[b].seen <==> b in Bands(edges, cells))
      invariant forall b :: b in started ==> started[b].left == if b in begun then begun[b].left else x
    {
      if edges[j].ids == {} {
        j := j + 1;
        assert j < |edges| ==> Bands(edges, j) == Bands(edges, j - 1);
        cells := if j < |edges| then j else CellCount(edges);
        continue;
      }
      var key := Band(edges[j].ids, edges[j].y, edges[j + 1].y);
      if key !in started {
        started := started[key := Progress(x, true)];
      } else {
        started := started[key := started[key].(seen := true)];
      }
      j := j + 1;
      cells := j;
      assert Bands(edges, j) == Bands(edges, j - 1) + {key};
    }
  }

  /** Outputs every started rectangle that was not seen at this stop; the order of the map is left open. */
  method FinishUnseen(ghost input: seq<Rect>, out: seq<RectSet>, all: map<Band, Progress>, x: int)
    returns (out': seq<RectSet>, started: map<Band, Progress>)
    requires SweptTo(input, out, all, x)
    requires forall b :: b in all && !all[b].seen ==> all[b].left < x
    ensures SweptTo(input, out', started, x)
    ensures started == map b | b in all && all[b].seen :: all[b]
  {
    out', started := out, all;
    var todo := all.Keys;
    while todo != {}
      invariant todo <= all.Keys
      invariant SweptTo(input, out', started, x)
      invariant started == map b | b in all && (all[b].seen || b in todo) :: all[b]
      decreases |todo|
    {
      var b :| b in todo;
      if !started[b].seen {
        FinishOne(input, out', started, x, b);
        out' := out' + [RectSet(b.ids, Rect(started[b].left, b.top, x, b.bottom))];
        started := started - {b};
      }
      todo := todo - {b};
    }
  }

  /** One stop of the sweep line at `x`. */
  method Stop(input: seq<Rect>, out: seq<RectSet>, begun: map<Band, Progress>, x: int,
              vEvents: seq<Event>, ghost active: set<nat>)
    returns (out': seq<RectSet>, started: map<Band, Progress>)
    requires SweptTo(input, out, begun, x)
    requires forall b :: b in begun ==> begun[b].left < x
    requires VerticalEvents(input, active, vEvents)
    requires forall i: nat :: i in active <==> Relevant(input, i) && input[i].left <= x < input[i].right
    ensures SweptTo(input, out', started, x)
    ensures SectionAt(input, started.Keys, x)
  {
    var edges := BuildCrossSection(input, active, vEvents);
    ghost var bands := Bands(edges, CellCount(edges));
    assert SectionAt(input, bands, x) by {
      forall y
        ensures SliceIds(input, active, y) == IdsAt(input, Point(x, y))
      {
      }
      BandsAreSection(input, active, edges, x);
    }
    started := map b | b in begun :: begun[b].(seen := false);
    MarkingKeepsPicture(input, out, begun, started, x);
    ghost var reset := started;
    started := MarkBands(edges, x, started);
    MarkingKeepsPicture(input, out, reset, started, x);
    out', started := FinishUnseen(input, out, started, x);
    assert started.Keys == bands;
  }

  /** Between two consecutive event positions the same rectangles hold every point of a row. */
  lemma {:induction false} NoChangeBetween(input: seq<Rect>, events: seq<Event>, k: nat, x: int, next: int)
    requires HorizontalEvents(input, events) && 0 <= k <= |events|
    requires k == 0 || events[k - 1].at <= x
    requires k == |events| || next <= events[k].at
    requires x < next
    ensures forall p: Point :: x <= p.x < next ==> IdsAt(input, p) == IdsAt(input, Point(x, p.y))
  {
    forall p: Point | x <= p.x < next
      ensures IdsAt(input, p) == IdsAt(input, Point(x, p.y))
    {
      ActiveAtStop(input, events, k, x);
      ActiveAtStop(input, events, k, p.x);
      forall i: nat | i < |input|
        ensures input[i].Contains(p) <==> input[i].Contains(Point(x, p.y))
      {
        if input[i].Empty() {
        } else {
          assert Relevant(input, i);
        }
      }
    }
  }

  /** What the main loop knows at its head: the vertical events of the active rectangles. */
  method StepEvents(input: seq<Rect>, hEvents: seq<Event>, k: nat, before: seq<Event>) returns (vEvents: seq<Event>)
    requires HorizontalEvents(input, hEvents) && k < |hEvents|
    requires VerticalEvents(input, ActiveAfter(input, hEvents, k), before)
    ensures VerticalEvents(input, ActiveAfter(input, hEvents, k + 1), vEvents)
  {
    var h := hEvents[k];
    assert h in hEvents;
    var rect := input[h.id];
    ActiveStep(input, hEvents, k);
    if h.kind == Start {
      vEvents := Insert(before, Event(Start, rect.top, h.id));
      vEvents := Insert(vEvents, Event(End, rect.bottom, h.id));
    } else {
      vEvents := Remove(before, Event(Start, rect.top, h.id));
      vEvents := Remove(vEvents, Event(End, rect.bottom, h.id));
    }
  }

  /** One stop of the sweep: the events from `stopped` to `k` are all at `x`. */
  method StopAfter(input: seq<Rect>, ghost events: seq<Event>, ghost stopped: nat, ghost lastStop: int, ghost k: nat,
                   x: int, vEvents: seq<Event>, out: seq<RectSet>, started: map<Band, Progress>)
    returns (out': seq<RectSet>, started': map<Band, Progress>)
    requires HorizontalEvents(input, events) && stopped < k <= |events|
    requires stopped == 0 || events[stopped - 1].at <= lastStop
    requires lastStop < x == events[stopped].at == events[k - 1].at && (k < |events| ==> x < events[k].at)
    requires VerticalEvents(input, ActiveAfter(input, events, k), vEvents)
    requires SweptTo(input, out, started, lastStop) && SectionAt(input, started.Keys, lastStop)
    ensures SweptTo(input, out', started', x) && SectionAt(input, started'.Keys, x)
  {
    assert forall b :: b in started ==> started[b].left <= lastStop;
    hide HorizontalEvents, VerticalEvents, SweptTo, SectionAt, ActiveAfter;
    NoChangeBetween(input, events, stopped, lastStop, x);
    CarryOn(input, out, started, lastStop, x);
    ActiveAtStop(input, events, k, x);
    out', started' := Stop(input, out, started, x, vEvents, ActiveAfter(input, events, k));
  }


  method SeparateRects64(input: seq<Rect>) returns (out: seq<RectSet>)
    ensures |input| > MAX_ELEMENTS ==> out == []
    ensures |input| <= MAX_ELEMENTS ==> Separates(input, out)
  {
    out := [];
    if |input| > MAX_ELEMENTS {
      return;
    }
    hide HorizontalEvents, VerticalEvents, SweptTo, SectionAt, ActiveAfter;
    var hEvents := CollectEvents(input);
    var vEvents: seq<Event> := [];
    var started: map<Band, Progress> := map[];

    // The last stop, or some position left of every rectangle.
    ghost var lastStop := if hEvents == [] then 0 else hEvents[0].at - 1;
    ghost var stopped := 0;
    NothingBeforeFirst(input, hEvents, lastStop);

    var k := 0;
    while k < |hEvents|
      invariant 0 <= stopped <= k <= |hEvents|
      invariant stopped == 0 || hEvents[stopped - 1].at <= lastStop
      invariant stopped < |hEvents| ==> lastStop < hEvents[stopped].at
      invariant stopped < k ==> k < |hEvents| && hEvents[stopped].at == hEvents[k].at
      invariant VerticalEvents(input, ActiveAfter(input, hEvents, k), vEvents)
      invariant SweptTo(input, out, started, lastStop) && SectionAt(input, started.Keys, lastStop)
    {
      vEvents := StepEvents(input, hEvents, k, vEvents);
      var x := hEvents[k].at;
      k := k + 1;
      // Peek ahead: more edges on the same sweep position are marked up first.
      if k < |hEvents| {
        assert Before(hEvents[k - 1], hEvents[k]);
        if hEvents[k].at == x {
          continue;
        }
      }
      out, started := StopAfter(input, hEvents, stopped, lastStop, k, x, vEvents, out, started);
      lastStop, stopped := x, k;
    }
    SweepEnds(input, hEvents, out, started, lastStop);
  }

  lemma {:induction false} SweepEnds(input: seq<Rect>, events: seq<Event>, out: seq<RectSet>,
                                     started: map<Band, Progress>, x: int)
    requires HorizontalEvents(input, events) && (events == [] || events[|events| - 1].at <= x)
    requires SweptTo(input, out, started, x) && SectionAt(input, started.Keys, x)
    ensures Separates(input, out)
  {
    NothingAfterLast(input, events, x);
    hide HorizontalEvents;
    forall b
      ensures b !in started
    {
      assert InBand(b, b.top) || b.top >= b.bottom;
      assert IdsAt(input, Point(x, b.top)) == {};
    }
    forall p
      ensures IdsAt(input, p) != {} <==> Covered(out, p)
    {
      assert !InSomeStrip(started, x, p);
    }
  }

  lemma {:induction false} NothingBeforeFirst(input: seq<Rect>, events: seq<Event>, x: int)
    requires HorizontalEvents(input, events)
    requires events == [] || x < events[0].at
    ensures SweptTo(input, [], map[], x) && SectionAt(input, {}, x)
  {
    forall p: Point | p.x <= x
      ensures IdsAt(input, p) == {}
    {
      ActiveAtStop(input, events, 0, p.x);
      forall i: nat | i < |input|
        ensures !input[i].Contains(p)
      {
        assert Relevant(input, i) ==> i !in ActiveAfter(input, events, 0);
      }
    }
  }

  lemma {:induction false} NothingAfterLast(input: seq<Rect>, events: seq<Event>, x: int)
    requires HorizontalEvents(input, events)
    requires events == [] || events[|events| - 1].at <= x
    ensures forall p: Point :: p.x >= x ==> IdsAt(input, p) == {}
  {
    forall p: Point | p.x >= x
      ensures IdsAt(input, p) == {}
    {
      ActiveAtStop(input, events, |events|, p.x);
      forall i: nat | i < |input|
        ensures !input[i].Contains(p)
      {
        if Relevant(input, i) {
          assert IsHorizontalEvent(input, Event(End, input[i].right, i));
          assert events[..|events|] == events;
          assert i !in ActiveAfter(input, events, |events|);
        }
      }
    }
  }
}
