/** From plugins to instances: a depth-first walk upstream from the sink that leaves disabled plugins out. */
module DspSort {
  import opened DspTypes
  import opened DspIni
  import opened DspTrails
  import opened DspWalk

  // ----- upstream -----

  ghost predicate Needs(g: Graph, p: nat, q: nat) {
    exists j: nat :: HasFlow(g, p, j) && From(g, p, j).At? && From(g, p, j).plugin == q
  }

  ghost predicate Chain(g: Graph, path: seq<nat>) {
    && path != [] && path[0] < |g.plugins|
    && forall t :: 0 <= t < |path| - 1 ==> Needs(g, path[t], path[t + 1])
  }

  /** Plugin `p` is `q`, or gets data from it over any number of flows. */
  ghost predicate Upstream(g: Graph, p: nat, q: nat) {
    exists path :: Chain(g, path) && path[0] == p && path[|path| - 1] == q
  }

  /** Data flows from lower to higher ranks, from wherever it comes to a plugin that has a rank; zero is no rank. */
  ghost predicate Ranked(g: Graph, rank: seq<nat>) {
    && |rank| == |g.plugins|
    && forall p: nat, j: nat ::
         HasRank(rank, p) && HasFlow(g, p, j) && From(g, p, j).At? && From(g, p, j).plugin < |rank| ==>
         || (HasRank(rank, From(g, p, j).plugin) && rank[From(g, p, j).plugin] < rank[p])
         || (From(g, p, j).plugin == p && g.plugins[p].ports[j].direction == Output)
  }

  ghost predicate HasRank(rank: seq<nat>, p: nat) {
    p < |rank| && rank[p] > 0
  }

  /** No data goes in a circle upstream of the sink. */
  ghost predicate Acyclic(g: Graph, sink: nat) {
    exists rank :: Ranked(g, rank) && HasRank(rank, sink)
  }

  lemma {:induction false} UpstreamSelf(g: Graph, p: nat)
    requires p < |g.plugins|
    ensures Upstream(g, p, p)
  {
    assert Chain(g, [p]);
  }

  lemma {:induction false} UpstreamStep(g: Graph, p: nat, q: nat, r: nat)
    requires p < |g.plugins| && Needs(g, p, q) && Upstream(g, q, r)
    ensures Upstream(g, p, r)
  {
    var path :| Chain(g, path) && path[0] == q && path[|path| - 1] == r;
    var longer := [p] + path;
    forall t | 0 <= t < |longer| - 1
      ensures Needs(g, longer[t], longer[t + 1])
    {
      if t > 0 {
        assert Needs(g, path[t - 1], path[t - 1 + 1]);
      }
    }
    assert Chain(g, longer);
  }

  ghost predicate Closed(g: Graph, done: set<nat>) {
    forall q: nat, j: nat :: q in done && HasFlow(g, q, j) ==> From(g, q, j).At? && From(g, q, j).plugin in done
  }

  lemma {:induction false} ChainStaysIn(g: Graph, done: set<nat>, path: seq<nat>, t: nat)
    requires Closed(g, done) && Chain(g, path) && path[0] in done && t < |path|
    ensures path[t] in done
  {
    if t > 0 {
      ChainStaysIn(g, done, path, t - 1);
      assert Needs(g, path[t - 1], path[t - 1 + 1]);
    }
  }

  lemma {:induction false} ClosedHasUpstream(g: Graph, done: set<nat>, p: nat, q: nat)
    requires Closed(g, done) && p in done && Upstream(g, p, q)
    ensures q in done
  {
    var path :| Chain(g, path) && path[0] == p && path[|path| - 1] == q;
    ChainStaysIn(g, done, path, |path| - 1);
  }

  // ----- what is built -----

  /** The port numbers of the outputs of an instance. */
  function Outputs(inst: Instance, kind: Kind): seq<nat> {
    if kind == Audio then seq(|inst.audioOut|, k requires 0 <= k < |inst.audioOut| => inst.audioOut[k].original)
    else seq(|inst.controlOut|, k requires 0 <= k < |inst.controlOut| => inst.controlOut[k].original)
  }

  function Inputs(inst: Instance, kind: Kind): seq<nat> {
    if kind == Audio then seq(|inst.audioIn|, k requires 0 <= k < |inst.audioIn| => inst.audioIn[k].original)
    else seq(|inst.controlIn|, k requires 0 <= k < |inst.controlIn| => inst.controlIn[k].original)
  }

  /** Port `ref` of an earlier instance is the first enabled output upstream of input `j` of plugin `p`. */
  ghost predicate PeerRight(g: Graph, earlier: seq<Instance>, p: nat, j: nat, kind: Kind, ref: PortRef) {
    && ref.instance < |earlier| && ref.port < |Outputs(earlier[ref.instance], kind)|
    && Origin(g, p, j, At(earlier[ref.instance].plugin, Outputs(earlier[ref.instance], kind)[ref.port]))
  }

  ghost predicate ControlPeerRight(g: Graph, earlier: seq<Instance>, p: nat, control: ControlIn) {
    match control.peer
    case Unconnected => !HasFlow(g, p, control.original)
    case Connected(ref) => PeerRight(g, earlier, p, control.original, Control, ref)
  }

  /** The first `n` ports of the plugin are on the instance, in order. */
  ghost predicate NumbersRight(ports: seq<Port>, inst: Instance, n: nat) {
    && n <= |ports|
    && (forall kind :: Outputs(inst, kind) == Select(ports, Output, kind, n))
    && (forall kind :: Inputs(inst, kind) == Select(ports, Input, kind, n))
  }

  ghost predicate PeersRight(g: Graph, earlier: seq<Instance>, inst: Instance) {
    && (forall k :: 0 <= k < |inst.audioIn| ==>
          PeerRight(g, earlier, inst.plugin, inst.audioIn[k].original, Audio, inst.audioIn[k].peer))
    && (forall k :: 0 <= k < |inst.controlIn| ==> ControlPeerRight(g, earlier, inst.plugin, inst.controlIn[k]))
  }

  ghost predicate InstanceRight(g: Graph, earlier: seq<Instance>, inst: Instance) {
    && inst.plugin < |g.plugins| && !g.plugins[inst.plugin].disabled
    && NumbersRight(g.plugins[inst.plugin].ports, inst, |g.plugins[inst.plugin].ports|) && PeersRight(g, earlier, inst)
  }

  /** The finished plugins: all they need is finished too, and exactly the enabled ones have instances. */
  ghost predicate Represents(g: Graph, instances: seq<Instance>, done: set<nat>) {
    && Closed(g, done)
    && (forall q: nat :: q in done ==>
          q < |g.plugins| && (g.plugins[q].disabled <==> FindInstance(instances, q) == |instances|))
  }

  ghost predicate Built(g: Graph, instances: seq<Instance>, done: set<nat>) {
    && Represents(g, instances, done) && PluginsDistinct(instances)
    && (forall i :: 0 <= i < |instances| ==>
          instances[i].plugin in done && InstanceRight(g, instances[..i], instances[i]))
  }

  /** A flow without a producer, or an input of an enabled plugin without an enabled output upstream. */
  ghost predicate BrokenAt(g: Graph, q: nat, j: nat) {
    && HasFlow(g, q, j)
    && (From(g, q, j) == Nowhere
        || (!g.plugins[q].disabled && g.plugins[q].ports[j].direction == Input && !HasOrigin(g, q, j)))
  }

  ghost predicate Broken(g: Graph, q: nat) {
    exists j: nat :: BrokenAt(g, q, j)
  }

  // ----- looking upstream -----

  /**
   * The input port that stands in for output port `index` of a
   * disabled plugin, or the number of ports when there is none.
   */
  method MatchingInput(g: Graph, plugin: nat, index: nat, kind: Kind) returns (i: nat)
    requires IsOutputAt(g, At(plugin, index)) && KindAt(g, At(plugin, index)) == kind && g.plugins[plugin].disabled
    ensures i < |g.plugins[plugin].ports| ==> Bypassed(g, At(plugin, index), At(plugin, i))
    ensures i >= |g.plugins[plugin].ports| ==> forall e :: !Bypassed(g, At(plugin, index), e)
  {
    var ports := g.plugins[plugin].ports;
    var k := 0;
    i := 0;
    while i < |ports| && i != index
      invariant i <= index && k == |Select(ports, Output, kind, i)|
    {
      if ports[i].direction == Output && ports[i].kind == kind {
        k := k + 1;
      }
      i := i + 1;
    }
    SelectAt(ports, Output, kind, |ports|, index);
    ghost var nth := k;
    assert NthOf(g, At(plugin, index), Output, kind, nth);
    i := 0;
    while i < |ports|
      invariant i <= |ports| && k >= 0 && k == nth - |Select(ports, Input, kind, i)|
    {
      if ports[i].direction == Input && ports[i].kind == kind {
        if k == 0 {
          SelectAt(ports, Input, kind, |ports|, i);
          assert NthOf(g, At(plugin, i), Input, kind, nth);
          return;
        }
        k := k - 1;
      }
      i := i + 1;
    }
    forall e | Bypassed(g, At(plugin, index), e)
      ensures false
    {
      var n: nat :| NthOf(g, At(plugin, index), Output, kind, n) && NthOf(g, e, Input, kind, n);
      NthUnique(g, At(plugin, index), Output, kind, kind, nth, n);
    }
  }

  /**
   * The origin of an input. The call ends exactly when the walk upstream
   * does; `fuel` is some number of steps after which it has ended.
   */
  method FindOriginPort(g: Graph, instances: seq<Instance>, plugin: nat, index: nat, ghost done: set<nat>,
                        ghost fuel: nat)
    returns (origin: Endpoint)
    requires WellFormed(g) && Represents(g, instances, done) && IsInputAt(g, At(plugin, index))
    requires HasFlow(g, plugin, index) ==> From(g, plugin, index).At? && From(g, plugin, index).plugin in done
    requires Follow(g, plugin, index, fuel).Stopped?
    ensures Follow(g, plugin, index, fuel) == Stopped(origin) && (origin.At? ==> origin.plugin in done)
    decreases fuel
  {
    hide WellFormed, Represents, Follow, Bypassed;
    var port := g.plugins[plugin].ports[index];
    WalkOver(g, plugin, index, fuel);
    if port.flow.NoFlow? {
      NoFlowNoStep(g, plugin, index);
      return Nowhere;
    }
    FlowIsKnown(g, plugin, index);
    var from := g.flows[port.flow.id].from;
    FromIsOutput(g, plugin, index);
    Represented(g, instances, done, from.plugin);
    if FindInstance(instances, from.plugin) < |instances| {
      return from;
    }
    var i := MatchingInput(g, from.plugin, from.port, port.kind);
    if i >= |g.plugins[from.plugin].ports| {
      return Nowhere;
    }
    StandsIn(g, from, At(from.plugin, i));
    WalkStep(g, plugin, index, At(from.plugin, i), fuel);
    origin := FindOriginPort(g, instances, from.plugin, i, done, fuel - 1);
  }

  lemma {:induction false} StandsIn(g: Graph, o: Endpoint, i: Endpoint)
    requires Bypassed(g, o, i)
    ensures IsInputAt(g, i)
  {
  }

  lemma {:induction false} Represented(g: Graph, instances: seq<Instance>, done: set<nat>, q: nat)
    requires Represents(g, instances, done) && q in done
    ensures q < |g.plugins| && (g.plugins[q].disabled <==> FindInstance(instances, q) == |instances|)
    ensures forall j: nat :: HasFlow(g, q, j) ==> From(g, q, j).At? && From(g, q, j).plugin in done
  {
  }

  lemma {:induction false} NoFlowNoStep(g: Graph, p: nat, j: nat)
    requires IsPort(g.plugins, p, j) && g.plugins[p].ports[j].flow.NoFlow?
    ensures !EnabledAt(g, From(g, p, j)) && forall i :: !Bypassed(g, From(g, p, j), i)
  {
  }

  /** Past a disabled plugin the walk goes on from the stand-in. */
  lemma {:induction false} WalkStep(g: Graph, p: nat, j: nat, i: Endpoint, fuel: nat)
    requires Bypassed(g, From(g, p, j), i) && Follow(g, p, j, fuel).Stopped?
    ensures i.At? && fuel > 0 && Follow(g, i.plugin, i.port, fuel - 1) == Follow(g, p, j, fuel)
  {
    BypassUnique(g, From(g, p, j), i, From(g, p, j), StandIn(g, From(g, p, j)));
  }

  /** Without a stand-in, or at an enabled output, the walk is over. */
  lemma {:induction false} WalkOver(g: Graph, p: nat, j: nat, fuel: nat)
    requires Follow(g, p, j, fuel).Stopped?
    ensures EnabledAt(g, From(g, p, j)) ==> Follow(g, p, j, fuel) == Stopped(From(g, p, j))
    ensures !EnabledAt(g, From(g, p, j)) && (forall i :: !Bypassed(g, From(g, p, j), i)) ==>
              Follow(g, p, j, fuel) == Stopped(Nowhere)
  {
  }

  lemma {:induction false} RankedStep(g: Graph, rank: seq<nat>, p: nat, j: nat)
    requires WellFormed(g) && Ranked(g, rank) && IsInputAt(g, At(p, j)) && HasRank(rank, p)
    ensures From(g, p, j).At? ==> HasRank(rank, From(g, p, j).plugin) && rank[From(g, p, j).plugin] < rank[p]
  {
    if From(g, p, j).At? {
      FromIsOutput(g, p, j);
    }
  }

  lemma {:induction false} WalkGoesOn(g: Graph, p: nat, j: nat, fuel: nat)
    requires var from := From(g, p, j);
             var i := StandIn(g, from);
             EnabledAt(g, from) || i == Nowhere || Follow(g, i.plugin, i.port, fuel).Stopped?
    ensures Follow(g, p, j, fuel + 1).Stopped?
  {
    hide EnabledAt, StandIn, From;
  }

  /** On an acyclic graph the walk ends after as many steps as the rank of the plugin it starts from. */
  lemma {:induction false} RankedWalkEnds(g: Graph, rank: seq<nat>, p: nat, j: nat, fuel: nat)
    requires WellFormed(g) && Ranked(g, rank) && IsInputAt(g, At(p, j)) && HasRank(rank, p) && rank[p] < fuel
    ensures Follow(g, p, j, fuel).Stopped?
    decreases fuel
  {
    hide WellFormed, Ranked, StandIn, Follow, From, EnabledAt;
    RankedStep(g, rank, p, j);
    StandInAt(g, From(g, p, j));
    var i := StandIn(g, From(g, p, j));
    if i != Nowhere {
      RankedWalkEnds(g, rank, i.plugin, i.port, fuel - 1);
    }
    WalkGoesOn(g, p, j, fuel - 1);
  }

  lemma {:induction false} FindAppended(instances: seq<Instance>, inst: Instance, q: nat)
    ensures FindInstance(instances + [inst], q) ==
              if FindInstance(instances, q) < |instances| then FindInstance(instances, q)
              else if inst.plugin == q then |instances| else |instances| + 1
  {
    var all := instances + [inst];
    var i := FindInstance(all, q);
    assert i < |instances| ==> all[i] == instances[i];
    assert all[|instances|] == inst;
    forall j | 0 <= j < |instances|
      ensures all[j] == instances[j]
    {
    }
    assert i < |all| ==> all[i].plugin == q;
  }

  // ----- making one instance -----

  lemma {:induction false} RepresentsAppended(g: Graph, instances: seq<Instance>, inst: Instance, done: set<nat>)
    requires Represents(g, instances, done) && inst.plugin !in done
    ensures Represents(g, instances + [inst], done)
  {
    forall q: nat | q in done
      ensures q < |g.plugins| && (g.plugins[q].disabled <==> FindInstance(instances + [inst], q) == |instances| + 1)
    {
      FindAppended(instances, inst, q);
    }
  }

  method FindOutputPort(instances: seq<Instance>, plugin: nat, index: nat, kind: Kind) returns (found: Peer)
    ensures found.Connected? ==>
              var r := found.ref;
              && r.instance == FindInstance(instances, plugin) < |instances|
              && r.port < |Outputs(instances[r.instance], kind)|
              && Outputs(instances[r.instance], kind)[r.port] == index
    ensures found.Unconnected? && FindInstance(instances, plugin) < |instances| ==>
              index !in Outputs(instances[FindInstance(instances, plugin)], kind)
  {
    var i := FindInstance(instances, plugin);
    if i == |instances| {
      return Unconnected;
    }
    var outputs := Outputs(instances[i], kind);
    for k := 0 to |outputs|
      invariant index !in outputs[..k]
    {
      if outputs[k] == index {
        return Connected(PortRef(i, k));
      }
    }
    return Unconnected;
  }

  /** The origin of an input is a port of an instance that is already there. */
  lemma {:induction false} OriginIsBuilt(g: Graph, instances: seq<Instance>, done: set<nat>, p: nat, j: nat,
                                         r: Endpoint)
    requires WellFormed(g) && Built(g, instances, done) && IsPort(g.plugins, p, j)
    requires Origin(g, p, j, r) && r.At? && r.plugin in done
    ensures FindInstance(instances, r.plugin) < |instances|
    ensures r.port in Outputs(instances[FindInstance(instances, r.plugin)], g.plugins[p].ports[j].kind)
  {
    var kind := g.plugins[p].ports[j].kind;
    var trail: seq<Endpoint> :| Trail(g, trail, r) && trail[0] == At(p, j);
    OriginKind(g, p, j, trail, r);
    var i := FindInstance(instances, r.plugin);
    assert InstanceRight(g, instances[..i], instances[i]);
    var ports := g.plugins[r.plugin].ports;
    SelectAt(ports, Output, kind, |ports|, r.port);
    assert Outputs(instances[i], kind)[|Select(ports, Output, kind, r.port)|] == r.port;
  }

  /** The peer of input `index`, found in the instances built so far. */
  method ConnectInput(g: Graph, instances: seq<Instance>, ghost earlier: seq<Instance>, plugin: nat, index: nat,
                      ghost done: set<nat>, ghost rank: seq<nat>)
    returns (peer: Peer)
    requires WellFormed(g) && Ranked(g, rank) && HasRank(rank, plugin)
    requires Built(g, earlier, done) && Represents(g, instances, done)
    requires |instances| == |earlier| + 1 && instances[..|earlier|] == earlier && instances[|earlier|].plugin == plugin
             && plugin !in done
    requires IsInputAt(g, At(plugin, index)) && HasFlow(g, plugin, index)
    requires From(g, plugin, index).At? && From(g, plugin, index).plugin in done
    ensures peer.Connected? <==> HasOrigin(g, plugin, index)
    ensures peer.Connected? ==> PeerRight(g, earlier, plugin, index, g.plugins[plugin].ports[index].kind, peer.ref)
  {
    hide WellFormed, Ranked, Built, Represents, Trail, HasFlow, From, Follow;
    var kind := g.plugins[plugin].ports[index].kind;
    RankedStep(g, rank, plugin, index);
    ghost var fuel := rank[plugin] + 1;
    RankedWalkEnds(g, rank, plugin, index, fuel);
    FollowFinds(g, plugin, index, fuel);
    var origin := FindOriginPort(g, instances, plugin, index, done, fuel);
    if origin.Nowhere? {
      return Unconnected;
    }
    assert instances == earlier + [instances[|earlier|]];
    FindAppended(earlier, instances[|earlier|], origin.plugin);
    OriginIsBuilt(g, earlier, done, plugin, index, origin);
    peer := FindOutputPort(instances, origin.plugin, origin.port, kind);
    ghost var i := FindInstance(earlier, origin.plugin);
    assert instances[i] == earlier[i];
    PeerFound(g, earlier, plugin, index, kind, origin, peer);
  }

  lemma {:induction false} PeerFound(g: Graph, earlier: seq<Instance>, p: nat, j: nat, kind: Kind, r: Endpoint,
                                     peer: Peer)
    requires r.At? && Origin(g, p, j, r) && FindInstance(earlier, r.plugin) < |earlier|
    requires peer.Connected? && peer.ref.instance == FindInstance(earlier, r.plugin)
    requires peer.ref.port < |Outputs(earlier[peer.ref.instance], kind)|
             && Outputs(earlier[peer.ref.instance], kind)[peer.ref.port] == r.port
    ensures PeerRight(g, earlier, p, j, kind, peer.ref) && HasOrigin(g, p, j)
  {
  }

  /** The port at the end of what has been put on the instance so far. */
  function AddPort(inst: Instance, port: Port, index: nat, peer: Peer): Instance
    requires port.kind == Audio && port.direction == Input ==> peer.Connected?
  {
    match (port.kind, port.direction)
    case (Audio, Input) => inst.(audioIn := inst.audioIn + [AudioIn(index, peer.ref, 0)])
    case (Audio, Output) => inst.(audioOut := inst.audioOut + [AudioOut(index, 0)])
    case (Control, Input) => inst.(controlIn := inst.controlIn + [ControlIn(index, peer)])
    case (Control, Output) => inst.(controlOut := inst.controlOut + [ControlOut(index)])
  }

  lemma {:induction false} AddPortNumbers(inst: Instance, port: Port, j: nat, peer: Peer, kind: Kind)
    requires port.kind == Audio && port.direction == Input ==> peer.Connected?
    ensures Outputs(AddPort(inst, port, j, peer), kind) ==
              Outputs(inst, kind) + if Matches(port, Output, kind) then [j] else []
    ensures Inputs(AddPort(inst, port, j, peer), kind) ==
              Inputs(inst, kind) + if Matches(port, Input, kind) then [j] else []
  {
  }

  lemma {:induction false} NumberAdded(ports: seq<Port>, inst: Instance, j: nat, peer: Peer)
    requires NumbersRight(ports, inst, j) && j < |ports|
    requires ports[j].kind == Audio && ports[j].direction == Input ==> peer.Connected?
    ensures NumbersRight(ports, AddPort(inst, ports[j], j, peer), j + 1)
  {
    hide Outputs, Inputs, AddPort, Matches;
    forall kind
      ensures Outputs(AddPort(inst, ports[j], j, peer), kind) == Select(ports, Output, kind, j + 1)
      ensures Inputs(AddPort(inst, ports[j], j, peer), kind) == Select(ports, Input, kind, j + 1)
    {
      AddPortNumbers(inst, ports[j], j, peer, kind);
    }
  }

  lemma {:induction false} PeerAdded(g: Graph, earlier: seq<Instance>, inst: Instance, port: Port, j: nat, peer: Peer)
    requires PeersRight(g, earlier, inst)
    requires port.kind == Audio && port.direction == Input ==> peer.Connected?
    requires port.direction == Input && peer.Connected? ==> PeerRight(g, earlier, inst.plugin, j, port.kind, peer.ref)
    requires port.direction == Input && peer.Unconnected? ==> !HasFlow(g, inst.plugin, j)
    ensures PeersRight(g, earlier, AddPort(inst, port, j, peer))
  {
    hide PeerRight, HasFlow;
  }

  lemma {:induction false} NothingAdded(g: Graph, earlier: seq<Instance>, ports: seq<Port>, plugin: nat, done: set<nat>)
    requires Built(g, earlier, done) && WellFormed(g) && Closed(g, done + {plugin})
    ensures forall j: nat :: HasFlow(g, plugin, j) ==> From(g, plugin, j).At?
    ensures var inst := Instance(plugin, [], [], [], [], false, 0, 0);
            NumbersRight(ports, inst, 0) && PeersRight(g, earlier, inst)
    ensures Represents(g, earlier, done) && AudioFlows(g) && FlowsKnown(g)
  {
  }

  predicate LastIs(instances: seq<Instance>, plugin: nat) {
    instances != [] && instances[|instances| - 1].plugin == plugin
  }

  /** Appends the instance of an enabled plugin; this fails exactly when one of its connected inputs has no origin. */
  method BuildInstance(g: Graph, p: Pipeline, plugin: nat, ghost done: set<nat>, ghost rank: seq<nat>)
    returns (ok: bool)
    requires WellFormed(g) && Ranked(g, rank) && HasRank(rank, plugin) && Built(g, p.instances, done)
    requires plugin < |g.plugins| && plugin !in done && !g.plugins[plugin].disabled
    requires Closed(g, done + {plugin})
    requires forall j: nat :: HasFlow(g, plugin, j) && g.plugins[plugin].ports[j].direction == Input ==>
               From(g, plugin, j).plugin in done
    modifies p`instances
    ensures old(p.instances) <= p.instances
    ensures ok ==> Built(g, p.instances, done + {plugin}) && LastIs(p.instances, plugin)
    ensures ok <==> !Broken(g, plugin)
  {
    hide WellFormed, Ranked, Built, Represents, Closed, PeersRight, NumbersRight, PeerRight, HasOrigin, PluginsDistinct;
    ghost var earlier := p.instances;
    var n := |p.instances|;
    var inst := Instance(plugin, [], [], [], [], false, 0, 0);
    p.instances := p.instances + [inst];
    var ports := g.plugins[plugin].ports;
    NothingAdded(g, earlier, ports, plugin, done);
    for j := 0 to |ports|
      invariant inst.plugin == plugin && p.instances == earlier + [inst]
      invariant NumbersRight(ports, inst, j) && PeersRight(g, earlier, inst)
      invariant forall i: nat :: i < j ==> !BrokenAt(g, plugin, i)
    {
      var peer := Unconnected;
      assert IsPort(g.plugins, plugin, j);
      if ports[j].flow.InFlow? && ports[j].direction == Input {
        RepresentsAppended(g, earlier, inst, done);
        peer := ConnectInput(g, p.instances, earlier, plugin, j, done, rank);
        if peer.Unconnected? {
          assert BrokenAt(g, plugin, j);
          return false;
        }
      }
      NumberAdded(ports, inst, j, peer);
      PeerAdded(g, earlier, inst, ports[j], j, peer);
      inst := AddPort(inst, ports[j], j, peer);
      p.instances := p.instances[n := inst];
    }
    InstanceBuilt(g, earlier, inst, done);
    return true;
  }

  lemma {:induction false} InstanceBuilt(g: Graph, earlier: seq<Instance>, inst: Instance, done: set<nat>)
    requires Built(g, earlier, done) && InstanceRight(g, earlier, inst) && inst.plugin !in done
    requires Closed(g, done + {inst.plugin})
    ensures Built(g, earlier + [inst], done + {inst.plugin})
  {
    var all := earlier + [inst];
    forall q: nat | q in done + {inst.plugin}
      ensures q < |g.plugins| && (g.plugins[q].disabled <==> FindInstance(all, q) == |all|)
    {
      FindAppended(earlier, inst, q);
    }
    forall i | 0 <= i < |all|
      ensures all[i].plugin in done + {inst.plugin} && InstanceRight(g, all[..i], all[i])
    {
      assert all[..i] == earlier[..i];
    }
  }

  // ----- the walk -----

  function Marked(visited: seq<bool>): set<nat> {
    set q: nat | q < |visited| && visited[q]
  }

  function Unmarked(visited: seq<bool>): set<nat> {
    set q: nat | q < |visited| && !visited[q]
  }

  lemma {:induction false} FewerUnmarked(a: seq<bool>, b: seq<bool>, plugin: nat)
    requires |a| == |b| && plugin < |a| && !a[plugin] && Marked(a) + {plugin} <= Marked(b)
    ensures Unmarked(b) < Unmarked(a)
  {
    forall q | q in Unmarked(b)
      ensures q in Unmarked(a)
    {
      assert q !in Marked(b);
    }
    assert plugin in Marked(b) && plugin in Unmarked(a) && plugin !in Unmarked(b);
  }

  /** Everything the walk below `plugin` has added is upstream of it and in order. */
  ghost predicate AddedRight(g: Graph, plugin: nat, added: set<nat>) {
    forall q :: q in added ==> Upstream(g, plugin, q) && !Broken(g, q)
  }

  ghost predicate Trouble(g: Graph, plugin: nat) {
    exists q: nat :: Upstream(g, plugin, q) && Broken(g, q)
  }

  /** Plugin `p` needs `q` when some port of `p`, of either direction and kind, is fed by an output of `q`. */
  lemma {:induction false} NeedsSays(g: Graph, p: nat, q: nat)
    requires WellFormed(g)
    ensures Needs(g, p, q) <==> exists j: nat, o: nat :: IsFedBy(g, p, j, q, o)
  {
    hide WellFormed, IsFedBy;
    if Needs(g, p, q) {
      var j: nat :| HasFlow(g, p, j) && From(g, p, j).At? && From(g, p, j).plugin == q;
      FromSays(g, p, j, q, From(g, p, j).port);
    }
    if j: nat, o: nat :| IsFedBy(g, p, j, q, o) {
      FromSays(g, p, j, q, o);
    }
  }

  /** What is wrong at a port, told by the ports: no output names its flow, or it is an input without an origin. */
  ghost predicate WrongAt(g: Graph, q: nat, j: nat) {
    && IsPort(g.plugins, q, j) && g.plugins[q].ports[j].flow.InFlow?
    && ((forall q': nat, o: nat :: !IsFedBy(g, q, j, q', o))
        || (!g.plugins[q].disabled && g.plugins[q].ports[j].direction == Input && forall r :: !Origin(g, q, j, r)))
  }

  lemma {:induction false} TroubleSays(g: Graph, sink: nat)
    requires WellFormed(g)
    ensures Trouble(g, sink) <==> exists q: nat, j: nat :: Upstream(g, sink, q) && WrongAt(g, q, j)
  {
    hide Upstream;
    forall q: nat, j: nat
      ensures BrokenAt(g, q, j) <==> WrongAt(g, q, j)
    {
      BrokenIsWrong(g, q, j);
    }
  }

  lemma {:induction false} BrokenIsWrong(g: Graph, q: nat, j: nat)
    requires WellFormed(g)
    ensures BrokenAt(g, q, j) <==> WrongAt(g, q, j)
  {
    if IsPort(g.plugins, q, j) && g.plugins[q].ports[j].flow.InFlow? {
      assert HasFlow(g, q, j);
      hide WellFormed, IsFedBy, Origin;
      forall q': nat, o: nat
        ensures From(g, q, j) == At(q', o) <==> IsFedBy(g, q, j, q', o)
      {
        FromSays(g, q, j, q', o);
      }
      if From(g, q, j).At? {
        assert IsFedBy(g, q, j, From(g, q, j).plugin, From(g, q, j).port);
      }
    }
  }

  lemma {:induction false} TroubleAbove(g: Graph, p: nat, q: nat)
    requires p < |g.plugins| && Needs(g, p, q) && Trouble(g, q)
    ensures Trouble(g, p)
  {
    var r: nat :| Upstream(g, q, r) && Broken(g, r);
    UpstreamStep(g, p, q, r);
  }

  lemma {:induction false} AddedAbove(g: Graph, p: nat, q: nat, added: set<nat>)
    requires p < |g.plugins| && Needs(g, p, q) && AddedRight(g, q, added)
    ensures AddedRight(g, p, added)
  {
    forall r | r in added
      ensures Upstream(g, p, r)
    {
      UpstreamStep(g, p, q, r);
    }
  }

  /** The walk is below the plugins in `open`; none of them is upstream of where it goes next. */
  ghost predicate MayVisit(rank: seq<nat>, open: set<nat>, plugin: nat) {
    HasRank(rank, plugin) && (plugin in open || forall q :: q in open ==> q < |rank| && rank[plugin] < rank[q])
  }

  lemma {:induction false} VisitedHasRank(rank: seq<nat>, open: set<nat>, plugin: nat)
    requires MayVisit(rank, open, plugin)
    ensures HasRank(rank, plugin)
  {
  }

  /** The first `j` flows of the plugin come from finished plugins. */
  ghost predicate FlowsDone(g: Graph, plugin: nat, j: nat, done: set<nat>) {
    forall i: nat :: i < j && HasFlow(g, plugin, i) ==>
      From(g, plugin, i).At? && (From(g, plugin, i).plugin in done || From(g, plugin, i).plugin == plugin)
  }

  lemma {:induction false} FlowIsKnown(g: Graph, plugin: nat, j: nat)
    requires WellFormed(g) && IsPort(g.plugins, plugin, j) && g.plugins[plugin].ports[j].flow.InFlow?
    ensures HasFlow(g, plugin, j)
  {
  }

  lemma {:induction false} MissingProducer(g: Graph, plugin: nat, j: nat)
    requires plugin < |g.plugins| && HasFlow(g, plugin, j) && From(g, plugin, j).Nowhere?
    ensures Trouble(g, plugin)
  {
    UpstreamSelf(g, plugin);
    assert BrokenAt(g, plugin, j);
    assert Broken(g, plugin);
  }

  lemma {:induction false} BrokenHere(g: Graph, plugin: nat)
    requires plugin < |g.plugins| && Broken(g, plugin)
    ensures Trouble(g, plugin)
  {
    UpstreamSelf(g, plugin);
  }

  lemma {:induction false} NoFlowDone(g: Graph, plugin: nat, j: nat, done: set<nat>)
    requires IsPort(g.plugins, plugin, j) && g.plugins[plugin].ports[j].flow.NoFlow? && FlowsDone(g, plugin, j, done)
    ensures FlowsDone(g, plugin, j + 1, done)
  {
  }

  lemma {:induction false} NoFlowsYet(g: Graph, plugin: nat, done: set<nat>)
    ensures FlowsDone(g, plugin, 0, done)
  {
  }

  lemma {:induction false} NextMayVisit(g: Graph, rank: seq<nat>, open: set<nat>, plugin: nat, j: nat)
    requires Ranked(g, rank) && MayVisit(rank, open, plugin) && plugin !in open
    requires HasFlow(g, plugin, j) && From(g, plugin, j).At? && From(g, plugin, j).plugin < |g.plugins|
    ensures MayVisit(rank, open + {plugin}, From(g, plugin, j).plugin)
  {
  }

  lemma {:induction false} NextFlowDone(g: Graph, rank: seq<nat>, open: set<nat>, plugin: nat, j: nat, done: set<nat>,
                                        marked: set<nat>)
    requires Ranked(g, rank) && MayVisit(rank, open, plugin) && plugin !in open
    requires HasFlow(g, plugin, j) && From(g, plugin, j).At? && From(g, plugin, j).plugin < |g.plugins|
    requires FlowsDone(g, plugin, j, done) && done <= marked - open - {plugin} && From(g, plugin, j).plugin in marked
    ensures FlowsDone(g, plugin, j + 1, marked - (open + {plugin}))
  {
  }

  lemma {:induction false} FlowsDoneCloses(g: Graph, plugin: nat, instances: seq<Instance>, done: set<nat>,
                                           rank: seq<nat>)
    requires plugin < |g.plugins| && FlowsDone(g, plugin, |g.plugins[plugin].ports|, done)
    requires Ranked(g, rank) && HasRank(rank, plugin) && Built(g, instances, done)
    ensures Closed(g, done + {plugin}) && forall j: nat :: HasFlow(g, plugin, j) ==> From(g, plugin, j) != Nowhere
    ensures forall j: nat :: HasFlow(g, plugin, j) && g.plugins[plugin].ports[j].direction == Input ==>
              From(g, plugin, j).plugin in done
  {
  }

  lemma {:induction false} DisabledDone(g: Graph, instances: seq<Instance>, done: set<nat>, plugin: nat)
    requires plugin < |g.plugins| && g.plugins[plugin].disabled && plugin !in done
    requires Built(g, instances, done) && Closed(g, done + {plugin})
    requires forall j: nat :: HasFlow(g, plugin, j) ==> From(g, plugin, j) != Nowhere
    ensures Built(g, instances, done + {plugin}) && !Broken(g, plugin)
  {
  }

  /**
   * Makes instances for the enabled plugins upstream of `plugin`, producers first. It fails exactly when a flow there
   * has no producer or a connected input of an enabled plugin has no enabled output upstream.
   */
  method TopologicalSort(g: Graph, p: Pipeline, plugin: nat, visited: array<bool>, ghost open: set<nat>,
                         ghost rank: seq<nat>)
    returns (ok: bool)
    requires WellFormed(g) && Ranked(g, rank) && visited.Length == |g.plugins| && plugin < |g.plugins|
    requires open <= Marked(visited[..]) && MayVisit(rank, open, plugin)
    requires Built(g, p.instances, Marked(visited[..]) - open)
    modifies p`instances, visited
    ensures old(p.instances) <= p.instances && Marked(old(visited[..])) <= Marked(visited[..])
    ensures ok ==> plugin in Marked(visited[..]) && Built(g, p.instances, Marked(visited[..]) - open)
    ensures ok ==> AddedRight(g, plugin, Marked(visited[..]) - Marked(old(visited[..])))
    ensures ok && plugin !in Marked(old(visited[..])) && !g.plugins[plugin].disabled ==> LastIs(p.instances, plugin)
    ensures !ok ==> Trouble(g, plugin)
    decreases Unmarked(visited[..])
  {
    hide WellFormed, Ranked, HasRank, Built, Broken, Upstream, MayVisit, FlowsDone, Trouble;
    if visited[plugin] {
      return true;
    }

    VisitedHasRank(rank, open, plugin);
    ghost var was := visited[..];
    ghost var entered := open + {plugin};
    visited[plugin] := true;
    assert Marked(visited[..]) == Marked(was) + {plugin};
    assert Marked(visited[..]) - entered == Marked(was) - open;
    NoFlowsYet(g, plugin, Marked(visited[..]) - entered);
    var ports := g.plugins[plugin].ports;
    for j := 0 to |ports|
      invariant old(p.instances) <= p.instances && Marked(was) + {plugin} <= Marked(visited[..])
      invariant Built(g, p.instances, Marked(visited[..]) - entered)
      invariant FlowsDone(g, plugin, j, Marked(visited[..]) - entered)
      invariant AddedRight(g, plugin, Marked(visited[..]) - Marked(was) - {plugin})
    {
      if ports[j].flow.NoFlow? {
        NoFlowDone(g, plugin, j, Marked(visited[..]) - entered);
        continue;
      }
      FlowIsKnown(g, plugin, j);
      var from := g.flows[ports[j].flow.id].from;
      if from.Nowhere? {
        MissingProducer(g, plugin, j);
        return false;
      }
      FromIsOutput(g, plugin, j);
      NextMayVisit(g, rank, open, plugin, j);
      assert Needs(g, plugin, from.plugin);
      ghost var before := visited[..];
      FewerUnmarked(was, before, plugin);
      var fed := TopologicalSort(g, p, from.plugin, visited, entered, rank);
      if !fed {
        TroubleAbove(g, plugin, from.plugin);
        return false;
      }
      AddedAbove(g, plugin, from.plugin, Marked(visited[..]) - Marked(before));
      NextFlowDone(g, rank, open, plugin, j, Marked(before) - entered, Marked(visited[..]));
    }

    ghost var done := Marked(visited[..]) - entered;
    assert Marked(visited[..]) - open == done + {plugin};
    UpstreamSelf(g, plugin);
    FlowsDoneCloses(g, plugin, p.instances, done, rank);
    if g.plugins[plugin].disabled {
      DisabledDone(g, p.instances, done, plugin);
      return true;
    }
    ok := BuildInstance(g, p, plugin, done, rank);
    if !ok {
      BrokenHere(g, plugin);
    }
  }

  // ----- the whole pipeline -----

  ghost predicate IsUpstream(g: Graph, sink: nat, q: nat) {
    q < |g.plugins| && Upstream(g, sink, q)
  }

  /** The instances of the pipeline are the enabled plugins upstream of the sink, each once, producers first. */
  ghost predicate Compiled(g: Graph, sink: nat, instances: seq<Instance>) {
    && PluginsDistinct(instances)
    && (forall i :: 0 <= i < |instances| ==>
          Upstream(g, sink, instances[i].plugin) && InstanceRight(g, instances[..i], instances[i]))
    && (forall q: nat :: IsUpstream(g, sink, q) && !g.plugins[q].disabled ==> FindInstance(instances, q) < |instances|)
  }

  lemma {:induction false} NothingBuilt(g: Graph, rank: seq<nat>, visited: seq<bool>, sink: nat)
    requires Ranked(g, rank) && HasRank(rank, sink) && forall q :: 0 <= q < |visited| ==> !visited[q]
    ensures Marked(visited) == {} && Marked(visited) - {} == {} && Built(g, [], {}) && MayVisit(rank, {}, sink)
  {
  }

  /** Builds the instances for a sink; this succeeds exactly when nothing upstream of the sink is broken. */
  method SortFrom(g: Graph, p: Pipeline, sink: nat) returns (ok: bool)
    requires WellFormed(g) && Acyclic(g, sink) && sink < |g.plugins| && p.instances == []
    modifies p`instances
    ensures ok <==> !Trouble(g, sink)
    ensures ok ==> Compiled(g, sink, p.instances) && (!g.plugins[sink].disabled ==> LastIs(p.instances, sink))
  {
    ghost var rank :| Ranked(g, rank) && HasRank(rank, sink);
    var visited := new bool[|g.plugins|](_ => false);
    NothingBuilt(g, rank, visited[..], sink);
    hide WellFormed, Ranked, Built, Compiled, Trouble, MayVisit, AddedRight, Marked, Unmarked;
    ok := TopologicalSort(g, p, sink, visited, {}, rank);
    if ok {
      ghost var done := Marked(visited[..]);
      assert done - {} == done;
      SortIsComplete(g, p.instances, sink, done);
    }
  }

  lemma {:induction false} SortIsComplete(g: Graph, instances: seq<Instance>, sink: nat, done: set<nat>)
    requires Built(g, instances, done) && sink in done && AddedRight(g, sink, done)
    ensures Compiled(g, sink, instances) && !Trouble(g, sink)
    ensures forall q: nat :: q in done <==> IsUpstream(g, sink, q)
  {
    hide Upstream, InstanceRight;
    forall q: nat | Upstream(g, sink, q)
      ensures q in done
    {
      ClosedHasUpstream(g, done, sink, q);
    }
  }

  lemma {:induction false} CompiledInput(g: Graph, sink: nat, instances: seq<Instance>, i: nat, k: nat)
    requires Compiled(g, sink, instances) && IsInput(instances, i, k)
    ensures PeerRight(g, instances, instances[i].plugin, instances[i].audioIn[k].original, Audio,
                      instances[i].audioIn[k].peer)
    ensures instances[i].audioIn[k].peer.instance < i
    ensures instances[i].plugin < |g.plugins| && !g.plugins[instances[i].plugin].disabled
  {
    assert InstanceRight(g, instances[..i], instances[i]);
    var ref := instances[i].audioIn[k].peer;
    assert PeerRight(g, instances[..i], instances[i].plugin, instances[i].audioIn[k].original, Audio, ref);
    assert instances[..i][ref.instance] == instances[ref.instance];
  }

  /**
   * Producers come before consumers, and with single-consumer audio flows no output is read twice, bypasses included.
   */
  lemma {:induction false} CompiledIsForward(g: Graph, sink: nat, instances: seq<Instance>)
    requires WellFormed(g) && Compiled(g, sink, instances)
    ensures Forward(instances)
    ensures SingleConsumer(g) ==> OneConsumer(instances)
  {
    forall i: nat, k: nat | IsInput(instances, i, k)
      ensures IsOutput(instances, instances[i].audioIn[k].peer) && instances[i].audioIn[k].peer.instance < i
    {
      CompiledInput(g, sink, instances, i, k);
    }
    if SingleConsumer(g) {
      forall i: nat, k: nat, j: nat, l: nat |
        IsInput(instances, i, k) && IsInput(instances, j, l)
          && instances[i].audioIn[k].peer == instances[j].audioIn[l].peer
        ensures i == j && k == l
      {
        CompiledReader(g, sink, instances, i, k, j, l);
      }
    }
  }

  lemma {:induction false} CompiledReader(g: Graph, sink: nat, instances: seq<Instance>, i: nat, k: nat, j: nat, l: nat)
    requires WellFormed(g) && Compiled(g, sink, instances) && SingleConsumer(g)
    requires IsInput(instances, i, k) && IsInput(instances, j, l)
             && instances[i].audioIn[k].peer == instances[j].audioIn[l].peer
    ensures i == j && k == l
  {
    CompiledInput(g, sink, instances, i, k);
    CompiledInput(g, sink, instances, j, l);
    var ref := instances[i].audioIn[k].peer;
    var r := At(instances[ref.instance].plugin, Outputs(instances[ref.instance], Audio)[ref.port]);
    var p, q := instances[i].plugin, instances[j].plugin;
    var x, y := instances[i].audioIn[k].original, instances[j].audioIn[l].original;
    OriginIsAudio(g, sink, instances, i, k, r);
    OriginInjective(g, p, x, q, y, r);
    assert i == j;
    InputsAscend(g, sink, instances, i);
  }

  lemma {:induction false} InputsAscend(g: Graph, sink: nat, instances: seq<Instance>, i: nat)
    requires Compiled(g, sink, instances) && i < |instances|
    ensures forall k, l :: 0 <= k < l < |instances[i].audioIn| ==>
              instances[i].audioIn[k].original < instances[i].audioIn[l].original
    ensures forall k :: 0 <= k < |instances[i].audioIn| ==>
              var e := At(instances[i].plugin, instances[i].audioIn[k].original);
              IsInputAt(g, e) && KindAt(g, e) == Audio
  {
    var inst := instances[i];
    assert InstanceRight(g, instances[..i], inst);
    var ports := g.plugins[inst.plugin].ports;
    hide Compiled, InstanceRight, PeersRight, Select, PluginsDistinct;
    SelectRight(ports, Input, Audio, |ports|);
    var s := Inputs(inst, Audio);
    assert Selection(ports, Input, Audio, |ports|, s);
    assert forall k :: 0 <= k < |inst.audioIn| ==> inst.audioIn[k].original == s[k];
  }

  lemma {:induction false} OriginIsAudio(g: Graph, sink: nat, instances: seq<Instance>, i: nat, k: nat, r: Endpoint)
    requires WellFormed(g) && Compiled(g, sink, instances) && IsInput(instances, i, k)
    requires Origin(g, instances[i].plugin, instances[i].audioIn[k].original, r)
    ensures EnabledAt(g, r) && KindAt(g, r) == Audio
  {
    var trail: seq<Endpoint> :| Trail(g, trail, r)
      && trail[0] == At(instances[i].plugin, instances[i].audioIn[k].original);
    InputsAscend(g, sink, instances, i);
    OriginKind(g, instances[i].plugin, instances[i].audioIn[k].original, trail, r);
  }
}
