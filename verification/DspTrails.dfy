/** Where the data of an input port comes from, when disabled plugins are passed by. */
module DspTrails {
  import opened DspIni

  // ----- the ports of one direction and kind, in order -----

  predicate Matches(port: Port, direction: Direction, kind: Kind) {
    port.direction == direction && port.kind == kind
  }

  function Select(ports: seq<Port>, direction: Direction, kind: Kind, n: nat): seq<nat>
    requires n <= |ports|
  {
    if n == 0 then []
    else Select(ports, direction, kind, n - 1) + if Matches(ports[n - 1], direction, kind) then [n - 1] else []
  }

  ghost predicate Selection(ports: seq<Port>, direction: Direction, kind: Kind, n: nat, s: seq<nat>)
    requires n <= |ports|
  {
    && (forall k :: 0 <= k < |s| ==> s[k] < n && Matches(ports[s[k]], direction, kind))
    && (forall k, l :: 0 <= k < l < |s| ==> s[k] < s[l])
  }

  lemma {:induction false} SelectRight(ports: seq<Port>, direction: Direction, kind: Kind, n: nat)
    requires n <= |ports|
    ensures Selection(ports, direction, kind, n, Select(ports, direction, kind, n))
  {
    if n > 0 {
      SelectRight(ports, direction, kind, n - 1);
    }
  }

  /** A matching port comes after exactly the matching ports in front of it. */
  lemma {:induction false} SelectAt(ports: seq<Port>, direction: Direction, kind: Kind, n: nat, j: nat)
    requires j < n <= |ports| && Matches(ports[j], direction, kind)
    ensures var s := Select(ports, direction, kind, n);
            |Select(ports, direction, kind, j)| < |s| && s[|Select(ports, direction, kind, j)|] == j
  {
    if j < n - 1 {
      SelectAt(ports, direction, kind, n - 1, j);
    }
  }

  // ----- one step upstream -----

  predicate HasFlow(g: Graph, p: nat, j: nat) {
    IsPort(g.plugins, p, j) && g.plugins[p].ports[j].flow.InFlow? && g.plugins[p].ports[j].flow.id < |g.flows|
  }

  /** The output port that feeds the flow of port `j` of plugin `p`. */
  function From(g: Graph, p: nat, j: nat): Endpoint {
    if HasFlow(g, p, j) then g.flows[g.plugins[p].ports[j].flow.id].from else Nowhere
  }

  predicate IsInputAt(g: Graph, e: Endpoint) {
    e.At? && IsPort(g.plugins, e.plugin, e.port) && g.plugins[e.plugin].ports[e.port].direction == Input
  }

  predicate IsOutputAt(g: Graph, e: Endpoint) {
    e.At? && IsPort(g.plugins, e.plugin, e.port) && g.plugins[e.plugin].ports[e.port].direction == Output
  }

  predicate EnabledAt(g: Graph, e: Endpoint) {
    IsOutputAt(g, e) && !g.plugins[e.plugin].disabled
  }

  function KindAt(g: Graph, e: Endpoint): Kind
    requires e.At? && IsPort(g.plugins, e.plugin, e.port)
  {
    g.plugins[e.plugin].ports[e.port].kind
  }

  /** In a disabled plugin the k-th output port stands for the k-th input port of the same kind. */
  ghost predicate Bypassed(g: Graph, o: Endpoint, i: Endpoint) {
    && IsOutputAt(g, o) && IsInputAt(g, i) && o.plugin == i.plugin && g.plugins[o.plugin].disabled
    && exists k: nat :: NthOf(g, o, Output, KindAt(g, o), k) && NthOf(g, i, Input, KindAt(g, o), k)
  }

  ghost predicate StepAt(g: Graph, trail: seq<Endpoint>, t: int) {
    0 <= t < |trail| - 1 && trail[t].At? && Bypassed(g, From(g, trail[t].plugin, trail[t].port), trail[t + 1])
  }

  ghost predicate NthOf(g: Graph, e: Endpoint, direction: Direction, kind: Kind, k: nat)
    requires e.At? && e.plugin < |g.plugins|
  {
    var ports := g.plugins[e.plugin].ports;
    k < |Select(ports, direction, kind, |ports|)| && Select(ports, direction, kind, |ports|)[k] == e.port
  }

  /**
   * The way from an input port up to an output port of an enabled plugin: every input but the first belongs to a
   * disabled plugin and stands in for the output that feeds the input before it.
   */
  ghost predicate Trail(g: Graph, trail: seq<Endpoint>, r: Endpoint) {
    && trail != [] && (forall t :: 0 <= t < |trail| ==> IsInputAt(g, trail[t]))
    && (forall t :: 0 <= t < |trail| - 1 ==> StepAt(g, trail, t))
    && From(g, trail[|trail| - 1].plugin, trail[|trail| - 1].port) == r && EnabledAt(g, r)
  }

  /** `r` is the first enabled output upstream of input `j` of plugin `p`. */
  ghost predicate Origin(g: Graph, p: nat, j: nat, r: Endpoint) {
    exists trail :: Trail(g, trail, r) && trail[0] == At(p, j)
  }

  ghost predicate HasOrigin(g: Graph, p: nat, j: nat) {
    exists r :: Origin(g, p, j, r)
  }

  lemma {:induction false} FromIsOutput(g: Graph, p: nat, j: nat)
    requires WellFormed(g) && HasFlow(g, p, j) && From(g, p, j).At?
    ensures IsOutputAt(g, From(g, p, j)) && KindAt(g, From(g, p, j)) == g.plugins[p].ports[j].kind
    ensures HasFlow(g, From(g, p, j).plugin, From(g, p, j).port)
    ensures g.plugins[From(g, p, j).plugin].ports[From(g, p, j).port].flow == g.plugins[p].ports[j].flow
  {
    var f := g.plugins[p].ports[j].flow.id;
    assert LatestEnd(g.plugins, Output, f, |g.plugins|, 0, g.flows[f].from);
    assert InFlowAt(g.plugins, p, j, f);
  }

  lemma {:induction false} NthUnique(g: Graph, e: Endpoint, direction: Direction, kind: Kind, kind': Kind, k: nat,
                                     k': nat)
    requires e.At? && e.plugin < |g.plugins| && NthOf(g, e, direction, kind, k) && NthOf(g, e, direction, kind', k')
    ensures IsPort(g.plugins, e.plugin, e.port) && Matches(g.plugins[e.plugin].ports[e.port], direction, kind)
    ensures kind == kind' && k == k'
  {
    var ports := g.plugins[e.plugin].ports;
    SelectRight(ports, direction, kind, |ports|);
    SelectRight(ports, direction, kind', |ports|);
    var s, s' := Select(ports, direction, kind, |ports|), Select(ports, direction, kind', |ports|);
    assert Matches(ports[s[k]], direction, kind) && Matches(ports[s'[k']], direction, kind');
    assert s == s';
  }

  lemma {:induction false} BypassUnique(g: Graph, o: Endpoint, i: Endpoint, o': Endpoint, i': Endpoint)
    requires Bypassed(g, o, i) && Bypassed(g, o', i')
    ensures KindAt(g, o) == KindAt(g, i) && (o == o' <==> i == i')
  {
    var k: nat :| NthOf(g, o, Output, KindAt(g, o), k) && NthOf(g, i, Input, KindAt(g, o), k);
    var k': nat :| NthOf(g, o', Output, KindAt(g, o'), k') && NthOf(g, i', Input, KindAt(g, o'), k');
    NthUnique(g, i, Input, KindAt(g, o), KindAt(g, o), k, k);
    if o == o' {
      NthUnique(g, o, Output, KindAt(g, o), KindAt(g, o'), k, k');
    }
    if i == i' {
      NthUnique(g, i, Input, KindAt(g, o), KindAt(g, o'), k, k');
    }
  }

  // ----- along a trail -----

  lemma {:induction false} TrailAt(g: Graph, trail: seq<Endpoint>, r: Endpoint, t: nat)
    requires Trail(g, trail, r) && t < |trail|
    ensures IsInputAt(g, trail[t]) && HasFlow(g, trail[t].plugin, trail[t].port)
    ensures IsOutputAt(g, From(g, trail[t].plugin, trail[t].port))
    ensures t > 0 ==> g.plugins[trail[t].plugin].disabled
    ensures if t < |trail| - 1 then Bypassed(g, From(g, trail[t].plugin, trail[t].port), trail[t + 1])
            else From(g, trail[t].plugin, trail[t].port) == r && EnabledAt(g, r)
  {
    if t < |trail| - 1 {
      assert StepAt(g, trail, t);
    }
    if t > 0 {
      assert StepAt(g, trail, t - 1);
    }
  }

  lemma {:induction false} TrailRest(g: Graph, trail: seq<Endpoint>, r: Endpoint)
    requires Trail(g, trail, r) && |trail| > 1
    ensures Trail(g, trail[1..], r)
  {
    var rest := trail[1..];
    forall t | 0 <= t < |rest| - 1
      ensures StepAt(g, rest, t)
    {
      assert StepAt(g, trail, t + 1);
    }
  }

  // ----- an input has one origin -----

  lemma {:induction false} TrailsAgree(g: Graph, a: seq<Endpoint>, ra: Endpoint, b: seq<Endpoint>, rb: Endpoint, t: nat)
    requires Trail(g, a, ra) && Trail(g, b, rb) && a[0] == b[0]
    requires t < |a| && t < |b|
    ensures a[t] == b[t]
  {
    if t > 0 {
      TrailsAgree(g, a, ra, b, rb, t - 1);
      TrailAt(g, a, ra, t - 1);
      TrailAt(g, b, rb, t - 1);
      BypassUnique(g, From(g, a[t - 1].plugin, a[t - 1].port), a[t], From(g, b[t - 1].plugin, b[t - 1].port), b[t]);
    }
  }

  lemma {:induction false} NotLonger(g: Graph, a: seq<Endpoint>, ra: Endpoint, b: seq<Endpoint>, rb: Endpoint)
    requires Trail(g, a, ra) && Trail(g, b, rb) && a[0] == b[0]
    ensures |a| >= |b|
  {
    if |a| < |b| {
      var t := |a| - 1;
      TrailsAgree(g, a, ra, b, rb, t);
      TrailAt(g, a, ra, t);
      TrailAt(g, b, rb, t);
    }
  }

  lemma {:induction false} OriginUnique(g: Graph, p: nat, j: nat, r: Endpoint, r': Endpoint)
    requires Origin(g, p, j, r) && Origin(g, p, j, r')
    ensures r == r'
  {
    var a :| Trail(g, a, r) && a[0] == At(p, j);
    var b :| Trail(g, b, r') && b[0] == At(p, j);
    NotLonger(g, a, r, b, r');
    NotLonger(g, b, r', a, r);
    TrailsAgree(g, a, r, b, r', |a| - 1);
  }

  lemma {:induction false} OriginHere(g: Graph, p: nat, j: nat)
    requires IsInputAt(g, At(p, j)) && EnabledAt(g, From(g, p, j))
    ensures Origin(g, p, j, From(g, p, j))
  {
    assert Trail(g, [At(p, j)], From(g, p, j));
  }

  lemma {:induction false} OriginThrough(g: Graph, p: nat, j: nat, i: Endpoint, r: Endpoint)
    requires IsInputAt(g, At(p, j)) && Bypassed(g, From(g, p, j), i)
    ensures Origin(g, p, j, r) <==> Origin(g, i.plugin, i.port, r)
  {
    if Origin(g, i.plugin, i.port, r) {
      var trail: seq<Endpoint> :| Trail(g, trail, r) && trail[0] == i;
      TrailPrepended(g, p, j, i, trail, r);
      assert ([At(p, j)] + trail)[0] == At(p, j);
    }
    if Origin(g, p, j, r) {
      var trail: seq<Endpoint> :| Trail(g, trail, r) && trail[0] == At(p, j);
      TrailContinues(g, trail, r, i);
    }
  }

  lemma {:induction false} TrailPrepended(g: Graph, p: nat, j: nat, i: Endpoint, trail: seq<Endpoint>, r: Endpoint)
    requires IsInputAt(g, At(p, j)) && Bypassed(g, From(g, p, j), i) && Trail(g, trail, r) && trail[0] == i
    ensures Trail(g, [At(p, j)] + trail, r)
  {
    hide Bypassed;
    var longer := [At(p, j)] + trail;
    forall t | 0 <= t < |longer| - 1
      ensures StepAt(g, longer, t)
    {
      if t > 0 {
        assert StepAt(g, trail, t - 1);
      }
    }
  }

  lemma {:induction false} TrailContinues(g: Graph, trail: seq<Endpoint>, r: Endpoint, i: Endpoint)
    requires Trail(g, trail, r) && Bypassed(g, From(g, trail[0].plugin, trail[0].port), i)
    ensures Origin(g, i.plugin, i.port, r)
  {
    TrailAt(g, trail, r, 0);
    TrailRest(g, trail, r);
    BypassUnique(g, From(g, trail[0].plugin, trail[0].port), i, From(g, trail[0].plugin, trail[0].port), trail[1]);
    assert trail[1..][0] == i;
  }

  /** Without an enabled output or a stand-in next to it an input has no origin. */
  lemma {:induction false} NoOrigin(g: Graph, p: nat, j: nat)
    requires !EnabledAt(g, From(g, p, j)) && forall i :: !Bypassed(g, From(g, p, j), i)
    ensures !HasOrigin(g, p, j)
  {
    forall r
      ensures !Origin(g, p, j, r)
    {
      if Origin(g, p, j, r) {
        var trail: seq<Endpoint> :| Trail(g, trail, r) && trail[0] == At(p, j);
        TrailAt(g, trail, r, 0);
      }
    }
  }

  // ----- the same, told by the ports alone -----

  /** How many ports in front of port `n` are of this direction and kind. */
  ghost function PortsBefore(ports: seq<Port>, direction: Direction, kind: Kind, n: nat): set<nat>
    requires n <= |ports|
  {
    set t: nat | t < n && ports[t].direction == direction && ports[t].kind == kind
  }

  lemma {:induction false} SelectCounts(ports: seq<Port>, direction: Direction, kind: Kind, n: nat)
    requires n <= |ports|
    ensures |Select(ports, direction, kind, n)| == |PortsBefore(ports, direction, kind, n)|
  {
    if n > 0 {
      SelectCounts(ports, direction, kind, n - 1);
      OneMorePort(ports, direction, kind, n - 1);
    }
  }

  lemma {:induction false} OneMorePort(ports: seq<Port>, direction: Direction, kind: Kind, n: nat)
    requires n < |ports|
    ensures var less, more := PortsBefore(ports, direction, kind, n), PortsBefore(ports, direction, kind, n + 1);
            |more| == |less| + if Matches(ports[n], direction, kind) then 1 else 0
  {
    var less, more := PortsBefore(ports, direction, kind, n), PortsBefore(ports, direction, kind, n + 1);
    assert more == if Matches(ports[n], direction, kind) then less + {n} else less;
  }

  lemma {:induction false} NthIsCounted(g: Graph, e: Endpoint, direction: Direction, kind: Kind, k: nat)
    requires e.At? && IsPort(g.plugins, e.plugin, e.port)
    ensures var ports := g.plugins[e.plugin].ports;
            NthOf(g, e, direction, kind, k) <==>
              Matches(ports[e.port], direction, kind) && k == |PortsBefore(ports, direction, kind, e.port)|
  {
    var ports := g.plugins[e.plugin].ports;
    SelectRight(ports, direction, kind, |ports|);
    SelectCounts(ports, direction, kind, e.port);
    if Matches(ports[e.port], direction, kind) {
      SelectAt(ports, direction, kind, |ports|, e.port);
    }
    hide PortsBefore;
    if NthOf(g, e, direction, kind, k) {
      var s := Select(ports, direction, kind, |ports|);
      assert Matches(ports[s[k]], direction, kind);
    }
  }

  /**
   * An output of a disabled plugin stands for an input if and only if both are of the same kind and as many outputs of
   * this kind are in front of the one as inputs in front of the other.
   */
  lemma {:induction false} BypassSays(g: Graph, p: nat, o: nat, i: nat)
    requires IsPort(g.plugins, p, o) && IsPort(g.plugins, p, i)
    ensures var ports := g.plugins[p].ports;
            Bypassed(g, At(p, o), At(p, i)) <==>
              && g.plugins[p].disabled && ports[o].direction == Output && ports[i].direction == Input
              && ports[o].kind == ports[i].kind
              && |PortsBefore(ports, Output, ports[o].kind, o)| == |PortsBefore(ports, Input, ports[o].kind, i)|
  {
    var ports := g.plugins[p].ports;
    var kind := ports[o].kind;
    var k := |PortsBefore(ports, Output, kind, o)|;
    hide PortsBefore, NthOf;
    NthIsCounted(g, At(p, i), Input, kind, k);
    forall n: nat
      ensures NthOf(g, At(p, o), Output, kind, n) <==> ports[o].direction == Output && n == k
    {
      NthIsCounted(g, At(p, o), Output, kind, n);
    }
    assert KindAt(g, At(p, o)) == kind;
    if Bypassed(g, At(p, o), At(p, i)) {
      var n: nat :| NthOf(g, At(p, o), Output, kind, n) && NthOf(g, At(p, i), Input, kind, n);
      assert n == k;
    }
    if ports[o].direction == Output && NthOf(g, At(p, i), Input, kind, k) {
      assert NthOf(g, At(p, o), Output, kind, k);
    }
  }

  /** Output `o` of plugin `q` is the last output in the file that names the flow of port `j` of plugin `p`. */
  ghost predicate IsFedBy(g: Graph, p: nat, j: nat, q: nat, o: nat) {
    && IsPort(g.plugins, p, j) && IsPort(g.plugins, q, o) && g.plugins[p].ports[j].flow.InFlow?
    && g.plugins[q].ports[o].direction == Output && g.plugins[q].ports[o].flow == g.plugins[p].ports[j].flow
    && forall q': nat, o': nat ::
         IsPort(g.plugins, q', o') && g.plugins[q'].ports[o'].direction == Output
         && g.plugins[q'].ports[o'].flow == g.plugins[p].ports[j].flow ==>
           q' < q || (q' == q && o' <= o)
  }

  lemma {:induction false} FromSays(g: Graph, p: nat, j: nat, q: nat, o: nat)
    requires WellFormed(g)
    ensures From(g, p, j) == At(q, o) <==> IsFedBy(g, p, j, q, o)
  {
    if HasFlow(g, p, j) {
      var f := g.plugins[p].ports[j].flow.id;
      assert LatestEnd(g.plugins, Output, f, |g.plugins|, 0, g.flows[f].from);
      assert InFlowAt(g.plugins, q, o, f) <==> IsPort(g.plugins, q, o) && g.plugins[q].ports[o].flow == InFlow(f);
      if From(g, p, j) == At(q, o) {
        forall q': nat, o': nat | InFlowAt(g.plugins, q', o', f) && g.plugins[q'].ports[o'].direction == Output
          ensures q' < q || (q' == q && o' <= o)
        {
        }
      }
      if IsFedBy(g, p, j, q, o) && From(g, p, j).At? {
        FromIsOutput(g, p, j);
      }
    } else if IsPort(g.plugins, p, j) {
      assert !g.plugins[p].ports[j].flow.InFlow?;
    }
  }

  // ----- an output reaches one input -----

  predicate ReadsAudio(g: Graph, p: nat, j: nat, f: nat) {
    InFlowAt(g.plugins, p, j, f) && Matches(g.plugins[p].ports[j], Input, Audio)
  }

  /** Every audio flow has at most one reader. */
  ghost predicate SingleConsumer(g: Graph) {
    forall p: nat, j: nat, q: nat, k: nat, f: nat :: ReadsAudio(g, p, j, f) && ReadsAudio(g, q, k, f) ==>
      p == q && j == k
  }

  ghost predicate IsAudioInput(g: Graph, e: Endpoint) {
    IsInputAt(g, e) && KindAt(g, e) == Audio
  }

  lemma {:induction false} OneReader(g: Graph, x: Endpoint, y: Endpoint)
    requires WellFormed(g) && SingleConsumer(g) && IsAudioInput(g, x) && IsInputAt(g, y)
    requires From(g, x.plugin, x.port) == From(g, y.plugin, y.port) && From(g, x.plugin, x.port).At?
    ensures x == y
  {
    FromIsOutput(g, x.plugin, x.port);
    FromIsOutput(g, y.plugin, y.port);
    var f := g.plugins[x.plugin].ports[x.port].flow.id;
    assert ReadsAudio(g, x.plugin, x.port, f) && ReadsAudio(g, y.plugin, y.port, f);
  }

  /** Two inputs that are fed by the same output, or by outputs with the same stand-in, are the same input. */
  lemma {:induction false} MeetStep(g: Graph, x: Endpoint, y: Endpoint, z: Endpoint)
    requires WellFormed(g) && SingleConsumer(g) && IsInputAt(g, x) && IsInputAt(g, y) && IsAudioInput(g, z)
    requires Bypassed(g, From(g, x.plugin, x.port), z) && Bypassed(g, From(g, y.plugin, y.port), z)
    ensures x == y && IsAudioInput(g, x)
  {
    BypassUnique(g, From(g, x.plugin, x.port), z, From(g, y.plugin, y.port), z);
    FromIsOutput(g, x.plugin, x.port);
    OneReader(g, x, y);
  }

  lemma {:induction false} TrailsMeet(g: Graph, a: seq<Endpoint>, b: seq<Endpoint>, r: Endpoint, n: nat)
    requires WellFormed(g) && SingleConsumer(g) && Trail(g, a, r) && Trail(g, b, r) && KindAt(g, r) == Audio
    requires n < |a| && n < |b|
    ensures a[|a| - 1 - n] == b[|b| - 1 - n] && IsAudioInput(g, a[|a| - 1 - n])
  {
    hide Trail, WellFormed, SingleConsumer, Bypassed;
    var s, t := |a| - 1 - n, |b| - 1 - n;
    TrailAt(g, a, r, s);
    TrailAt(g, b, r, t);
    if n == 0 {
      FromIsOutput(g, a[s].plugin, a[s].port);
      OneReader(g, a[s], b[t]);
    } else {
      TrailsMeet(g, a, b, r, n - 1);
      MeetStep(g, a[s], b[t], a[s + 1]);
    }
  }

  lemma {:induction false} MeetsNoLonger(g: Graph, a: seq<Endpoint>, b: seq<Endpoint>, r: Endpoint)
    requires WellFormed(g) && SingleConsumer(g) && Trail(g, a, r) && Trail(g, b, r) && KindAt(g, r) == Audio
    requires a[0].plugin < |g.plugins| && !g.plugins[a[0].plugin].disabled
    ensures |a| >= |b|
  {
    assert |a| > 0;
    hide WellFormed, SingleConsumer, Trail, Bypassed;
    if |a| < |b| {
      TrailsMeet(g, a, b, r, |a| - 1);
      TrailAt(g, b, r, |b| - |a|);
    }
  }

  /** Two inputs of enabled plugins with the same origin are the same input. */
  lemma {:induction false} OriginInjective(g: Graph, p: nat, j: nat, q: nat, k: nat, r: Endpoint)
    requires WellFormed(g) && SingleConsumer(g)
    requires Origin(g, p, j, r) && Origin(g, q, k, r) && EnabledAt(g, r) && KindAt(g, r) == Audio
    requires p < |g.plugins| && !g.plugins[p].disabled && q < |g.plugins| && !g.plugins[q].disabled
    ensures p == q && j == k
  {
    hide WellFormed, SingleConsumer, Bypassed, StepAt;
    var a :| Trail(g, a, r) && a[0] == At(p, j);
    var b :| Trail(g, b, r) && b[0] == At(q, k);
    hide Trail;
    MeetsNoLonger(g, a, b, r);
    MeetsNoLonger(g, b, a, r);
    TrailsMeet(g, a, b, r, |a| - 1);
  }

  /** The origin carries the same kind of data. */
  lemma {:induction false} OriginKind(g: Graph, p: nat, j: nat, trail: seq<Endpoint>, r: Endpoint)
    requires WellFormed(g) && Trail(g, trail, r) && trail[0] == At(p, j)
    ensures KindAt(g, r) == g.plugins[p].ports[j].kind
    decreases |trail|
  {
    TrailAt(g, trail, r, 0);
    FromIsOutput(g, p, j);
    if |trail| > 1 {
      BypassUnique(g, From(g, p, j), trail[1], From(g, p, j), trail[1]);
      TrailRest(g, trail, r);
      OriginKind(g, trail[1].plugin, trail[1].port, trail[1..], r);
    }
  }
}
