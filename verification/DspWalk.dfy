/** The walk upstream past disabled plugins: what it finds, and when it ends. */
module DspWalk {
  import opened DspIni
  import opened DspTrails

  datatype Outcome = Running | Stopped(origin: Endpoint)

  /** The input that stands in for output `o` of a disabled plugin. */
  ghost function StandIn(g: Graph, o: Endpoint): (i: Endpoint)
    ensures (exists e :: Bypassed(g, o, e)) ==> Bypassed(g, o, i)
    ensures !(exists e :: Bypassed(g, o, e)) ==> i == Nowhere
  {
    if e :| Bypassed(g, o, e) then e else Nowhere
  }

  lemma {:induction false} StandInAt(g: Graph, o: Endpoint)
    ensures StandIn(g, o) != Nowhere ==> o.At? && IsInputAt(g, StandIn(g, o)) && StandIn(g, o).plugin == o.plugin
  {
  }

  /** At most `fuel` steps up from input `j` of plugin `p`: to the first enabled output, or to where there is none. */
  ghost function Follow(g: Graph, p: nat, j: nat, fuel: nat): Outcome
    decreases fuel
  {
    if fuel == 0 then Running
    else
      var from := From(g, p, j);
      if EnabledAt(g, from) then Stopped(from)
      else
        var i := StandIn(g, from);
        if i == Nowhere then Stopped(Nowhere) else Follow(g, i.plugin, i.port, fuel - 1)
  }

  /** The walk finds the first enabled output upstream, and nothing exactly when there is none. */
  lemma {:induction false} FollowFinds(g: Graph, p: nat, j: nat, fuel: nat)
    requires IsInputAt(g, At(p, j)) && Follow(g, p, j, fuel).Stopped?
    ensures var origin := Follow(g, p, j, fuel).origin;
            if origin.At? then Origin(g, p, j, origin) else !HasOrigin(g, p, j)
    decreases fuel
  {
    var from := From(g, p, j);
    if EnabledAt(g, from) {
      OriginHere(g, p, j);
    } else {
      var i := StandIn(g, from);
      if i == Nowhere {
        NoOrigin(g, p, j);
      } else {
        FollowFinds(g, i.plugin, i.port, fuel - 1);
        forall r
          ensures Origin(g, p, j, r) <==> Origin(g, i.plugin, i.port, r)
        {
          OriginThrough(g, p, j, i, r);
        }
      }
    }
  }

  lemma {:induction false} MoreFuel(g: Graph, p: nat, j: nat, fuel: nat, more: nat)
    requires fuel <= more && Follow(g, p, j, fuel).Stopped?
    ensures Follow(g, p, j, more) == Follow(g, p, j, fuel)
    decreases fuel
  {
    var from := From(g, p, j);
    var i := StandIn(g, from);
    if !EnabledAt(g, from) && i != Nowhere {
      MoreFuel(g, i.plugin, i.port, fuel - 1, more - 1);
    }
  }

  // ----- when it ends -----

  /** Inputs, each the stand-in for the output that feeds the one before it. */
  ghost predicate Way(g: Graph, way: seq<Endpoint>) {
    && way != [] && (forall t :: 0 <= t < |way| ==> IsInputAt(g, way[t]))
    && (forall t :: 0 <= t < |way| - 1 ==> StepAt(g, way, t))
  }

  /** Going up from an input, past disabled plugins only, comes by the same input twice. */
  ghost predicate Circles(g: Graph, p: nat, j: nat) {
    exists way, s: nat, t: nat :: Way(g, way) && way[0] == At(p, j) && s < t < |way| && way[s] == way[t]
  }

  lemma {:induction false} FollowStep(g: Graph, x: Endpoint, y: Endpoint, fuel: nat)
    requires x.At? && Bypassed(g, From(g, x.plugin, x.port), y) && Follow(g, x.plugin, x.port, fuel).Stopped?
    ensures fuel > 0 && y.At? && Follow(g, y.plugin, y.port, fuel - 1).Stopped?
  {
    var o := From(g, x.plugin, x.port);
    BypassUnique(g, o, y, o, StandIn(g, o));
  }

  lemma {:induction false} WayStep(g: Graph, way: seq<Endpoint>, t: nat)
    requires Way(g, way) && t + 1 < |way|
    ensures way[t].At? && way[t + 1].At? && Bypassed(g, From(g, way[t].plugin, way[t].port), way[t + 1])
  {
    assert StepAt(g, way, t);
  }

  lemma {:induction false} FollowAlong(g: Graph, way: seq<Endpoint>, s: nat, t: nat, fuel: nat)
    requires Way(g, way) && s <= t < |way| && way[s].At? && Follow(g, way[s].plugin, way[s].port, fuel).Stopped?
    ensures way[t].At? && t - s <= fuel && Follow(g, way[t].plugin, way[t].port, fuel - (t - s)).Stopped?
    decreases t - s
  {
    hide Follow, Bypassed, Way;
    if s < t {
      FollowAlong(g, way, s, t - 1, fuel);
      WayStep(g, way, t - 1);
      FollowStep(g, way[t - 1], way[t], fuel - (t - 1 - s));
    }
  }

  lemma {:induction false} CircleNeverStops(g: Graph, way: seq<Endpoint>, s: nat, t: nat, fuel: nat)
    requires Way(g, way) && s < t < |way| && way[s] == way[t]
    ensures Follow(g, way[s].plugin, way[s].port, fuel).Running?
  {
    if Follow(g, way[s].plugin, way[s].port, fuel).Stopped? {
      FollowAlong(g, way, s, t, fuel);
      CircleNeverStops(g, way, s, t, fuel - (t - s));
    }
  }

  /** A walk that is still running after `fuel` steps has gone through that many inputs. */
  lemma {:induction false} WayOfLength(g: Graph, p: nat, j: nat, fuel: nat) returns (way: seq<Endpoint>)
    requires IsInputAt(g, At(p, j)) && Follow(g, p, j, fuel).Running?
    ensures Way(g, way) && way[0] == At(p, j) && |way| == fuel + 1
    decreases fuel
  {
    way := [At(p, j)];
    if fuel > 0 {
      var i := StandIn(g, From(g, p, j));
      var rest := WayOfLength(g, i.plugin, i.port, fuel - 1);
      way := way + rest;
      forall t | 0 <= t < |way| - 1
        ensures StepAt(g, way, t)
      {
        if t > 0 {
          assert StepAt(g, rest, t - 1);
        }
      }
    }
  }

  ghost function PortsOf(g: Graph, p: nat, n: nat): (s: set<Endpoint>)
    ensures |s| <= n && forall j: nat :: j < n ==> At(p, j) in s
  {
    if n == 0 then {} else PortsOf(g, p, n - 1) + {At(p, n - 1)}
  }

  ghost function AllPorts(g: Graph, n: nat): (s: set<Endpoint>)
    requires n <= |g.plugins|
    ensures forall p: nat, j: nat :: p < n && IsPort(g.plugins, p, j) ==> At(p, j) in s
  {
    if n == 0 then {} else AllPorts(g, n - 1) + PortsOf(g, n - 1, |g.plugins[n - 1].ports|)
  }

  /** More entries than members make one entry come twice. */
  lemma {:induction false} SomeTwice(way: seq<Endpoint>, all: set<Endpoint>) returns (s: nat, t: nat)
    requires |way| > |all| && forall k :: 0 <= k < |way| ==> way[k] in all
    ensures s < t < |way| && way[s] == way[t]
  {
    var n := |way| - 1;
    if k :| 0 <= k < n && way[k] == way[n] {
      s, t := k, n;
    } else {
      s, t := SomeTwice(way[..n], all - {way[n]});
    }
  }

  lemma {:induction false} CirclingNeverEnds(g: Graph, p: nat, j: nat, fuel: nat)
    requires Circles(g, p, j)
    ensures Follow(g, p, j, fuel).Running?
  {
    var way: seq<Endpoint>, s: nat, t: nat :| Way(g, way) && way[0] == At(p, j) && s < t < |way| && way[s] == way[t];
    assert way[s].At?;
    hide Follow, Way, Circles;
    if Follow(g, p, j, fuel).Stopped? {
      FollowAlong(g, way, 0, s, fuel);
      CircleNeverStops(g, way, s, t, fuel - s);
    }
  }

  lemma {:induction false} LongWayCircles(g: Graph, p: nat, j: nat, way: seq<Endpoint>)
    requires Way(g, way) && way[0] == At(p, j) && |way| > |AllPorts(g, |g.plugins|)|
    ensures Circles(g, p, j)
  {
    hide StepAt;
    var s, t := SomeTwice(way, AllPorts(g, |g.plugins|));
  }

  /** The walk up from an input ends if and only if it does not come by an input twice. */
  lemma {:induction false} WalkEndsIff(g: Graph, p: nat, j: nat)
    requires IsInputAt(g, At(p, j))
    ensures (exists fuel: nat :: Follow(g, p, j, fuel).Stopped?) <==> !Circles(g, p, j)
  {
    hide Follow, Circles, Way, AllPorts;
    if Circles(g, p, j) {
      forall fuel: nat
        ensures Follow(g, p, j, fuel).Running?
      {
        CirclingNeverEnds(g, p, j, fuel);
      }
    } else {
      var fuel := |AllPorts(g, |g.plugins|)|;
      if Follow(g, p, j, fuel).Running? {
        var way := WayOfLength(g, p, j, fuel);
        LongWayCircles(g, p, j, way);
      }
      assert Follow(g, p, j, fuel).Stopped?;
    }
  }
}
