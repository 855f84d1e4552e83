/** A DSP pipeline from its file to the sound at its sink. */
module DspPipeline {
  import opened Options
  import opened DspTypes
  import opened DspIni
  import opened DspTrails
  import opened DspSort
  import opened DspBuffers
  import opened DspRun
  import opened DspDelay

  /** What a plugin is for the purpose the pipeline is made for. */
  datatype Role = Source | Sink | Effect

  ghost predicate IsEnabled(g: Graph, roles: seq<Role>, role: Role, i: nat) {
    i < |g.plugins| && i < |roles| && roles[i] == role && !g.plugins[i].disabled
  }

  ghost predicate Sole(g: Graph, roles: seq<Role>, role: Role, i: nat) {
    IsEnabled(g, roles, role, i) && forall j: nat :: IsEnabled(g, roles, role, j) ==> i == j
  }

  /** The only enabled plugin of the role, or the number of plugins when there is none or more than one. */
  method FindEnabledBuiltin(g: Graph, roles: seq<Role>, role: Role) returns (found: nat)
    requires |roles| == |g.plugins|
    ensures found <= |g.plugins| && (found < |g.plugins| ==> Sole(g, roles, role, found))
    ensures forall i: nat :: Sole(g, roles, role, i) ==> i == found
  {
    var n := |g.plugins|;
    found := n;
    for i := 0 to n
      invariant found < i || found == n
      invariant forall j: nat :: j < i && IsEnabled(g, roles, role, j) ==> j == found
      invariant found < n ==> IsEnabled(g, roles, role, found)
    {
      if roles[i] != role || g.plugins[i].disabled {
        continue;
      }
      assert IsEnabled(g, roles, role, i);
      if found < n {
        return n;
      }
      found := i;
    }
  }

  // ----- the pipeline keeps its shape -----

  /** The same instances and connections; buffers, module properties and delays may differ. */
  ghost predicate SameShape(a: seq<Instance>, b: seq<Instance>) {
    |a| == |b| && forall i :: 0 <= i < |a| ==> SameForm(a[i], b[i])
  }

  ghost predicate SameForm(x: Instance, y: Instance) {
    && x.plugin == y.plugin && x.controlIn == y.controlIn && x.controlOut == y.controlOut
    && |x.audioIn| == |y.audioIn| && |x.audioOut| == |y.audioOut|
    && (forall k :: 0 <= k < |x.audioIn| ==> y.audioIn[k] == x.audioIn[k].(buf := y.audioIn[k].buf))
    && (forall k :: 0 <= k < |x.audioOut| ==> y.audioOut[k] == x.audioOut[k].(buf := y.audioOut[k].buf))
  }

  lemma {:induction false} SameFormPorts(x: Instance, y: Instance)
    requires SameForm(x, y)
    ensures forall kind :: Outputs(x, kind) == Outputs(y, kind) && Inputs(x, kind) == Inputs(y, kind)
  {
  }

  lemma {:induction false} SamePeer(g: Graph, a: seq<Instance>, b: seq<Instance>, p: nat, j: nat, kind: Kind,
                                    ref: PortRef)
    requires SameShape(a, b) && PeerRight(g, a, p, j, kind, ref)
    ensures PeerRight(g, b, p, j, kind, ref)
  {
    assert SameForm(a[ref.instance], b[ref.instance]);
    SameFormPorts(a[ref.instance], b[ref.instance]);
  }

  lemma {:induction false} SameInstanceRight(g: Graph, a: seq<Instance>, b: seq<Instance>, x: Instance, y: Instance)
    requires SameShape(a, b) && SameForm(x, y) && InstanceRight(g, a, x)
    ensures InstanceRight(g, b, y)
  {
    SameFormPorts(x, y);
    hide PeerRight, SameShape;
    forall k | 0 <= k < |y.audioIn|
      ensures PeerRight(g, b, y.plugin, y.audioIn[k].original, Audio, y.audioIn[k].peer)
    {
      SamePeer(g, a, b, x.plugin, x.audioIn[k].original, Audio, x.audioIn[k].peer);
    }
    forall k | 0 <= k < |y.controlIn|
      ensures ControlPeerRight(g, b, y.plugin, y.controlIn[k])
    {
      assert ControlPeerRight(g, a, x.plugin, x.controlIn[k]);
      if x.controlIn[k].peer.Connected? {
        SamePeer(g, a, b, x.plugin, x.controlIn[k].original, Control, x.controlIn[k].peer.ref);
      }
    }
  }

  lemma {:induction false} SameFind(a: seq<Instance>, b: seq<Instance>, q: nat)
    requires SameShape(a, b)
    ensures FindInstance(a, q) == FindInstance(b, q)
  {
    var i, j := FindInstance(a, q), FindInstance(b, q);
    assert i < |a| ==> SameForm(a[i], b[i]);
    assert j < |b| ==> SameForm(a[j], b[j]);
  }

  lemma {:induction false} SameCompiled(g: Graph, sink: nat, a: seq<Instance>, b: seq<Instance>)
    requires SameShape(a, b) && Compiled(g, sink, a)
    ensures Compiled(g, sink, b)
  {
    hide InstanceRight, Upstream;
    assert forall i :: 0 <= i < |a| ==> SameForm(a[i], b[i]);
    forall i | 0 <= i < |b|
      ensures Upstream(g, sink, b[i].plugin) && InstanceRight(g, b[..i], b[i])
    {
      SameInstanceRight(g, a[..i], b[..i], a[i], b[i]);
    }
    forall q: nat | IsUpstream(g, sink, q) && !g.plugins[q].disabled
      ensures FindInstance(b, q) < |b|
    {
      SameFind(a, b, q);
    }
  }

  lemma {:induction false} SameShapePorts(a: seq<Instance>, b: seq<Instance>)
    requires SameShape(a, b)
    ensures |a| == |b|
    ensures forall i :: 0 <= i < |a| ==> |a[i].audioIn| == |b[i].audioIn| && |a[i].audioOut| == |b[i].audioOut|
  {
  }

  // ----- create, load, instantiate -----

  datatype Ends = NoPipeline | Ends(source: nat, sink: nat)

  /** Audio channels of a plugin in one direction. */
  ghost function Channels(g: Graph, plugin: nat, direction: Direction): nat {
    if plugin < |g.plugins| then |Select(g.plugins[plugin].ports, direction, Audio, |g.plugins[plugin].ports|)| else 0
  }

  /** Source and sink are each the one enabled plugin of their role, and nothing is wrong between them. */
  ghost predicate CanCreate(g: Graph, roles: seq<Role>, source: nat, sink: nat) {
    && Sole(g, roles, Source, source) && Sole(g, roles, Sink, sink)
    && !Trouble(g, sink) && Upstream(g, sink, source) && Channels(g, sink, Input) <= Channels(g, source, Output)
  }

  ghost predicate CreatedRight(g: Graph, roles: seq<Role>, instances: seq<Instance>, ends: Ends) {
    match ends
    case NoPipeline =>
      forall source: nat, sink: nat :: Sole(g, roles, Source, source) && Sole(g, roles, Sink, sink) ==>
        Trouble(g, sink) || !Upstream(g, sink, source) || Channels(g, sink, Input) > Channels(g, source, Output)
    case Ends(i, k) =>
      && i < |instances| && k == |instances| - 1 && |instances[k].audioIn| <= |instances[i].audioOut|
      && CanCreate(g, roles, instances[i].plugin, instances[k].plugin) && Compiled(g, instances[k].plugin, instances)
  }

  lemma {:induction false} NotBoth(g: Graph, roles: seq<Role>, instances: seq<Instance>, ends: Ends)
    requires CreatedRight(g, roles, instances, ends)
    ensures ends.NoPipeline? <==> forall i: nat, k: nat :: !CanCreate(g, roles, i, k)
    ensures ends.Ends? ==> ends.source < |instances| && ends.sink < |instances|
    ensures ends.Ends? ==> CanCreate(g, roles, instances[ends.source].plugin, instances[ends.sink].plugin)
    ensures ends.Ends? ==> Compiled(g, instances[ends.sink].plugin, instances)
  {
    hide Compiled, Sole, Trouble, Upstream, Channels;
  }

  /** No data goes in a circle upstream of the sink of the graph, if it has one. */
  ghost predicate OneWay(g: Graph, roles: seq<Role>) {
    forall sink: nat :: Sole(g, roles, Sink, sink) ==> Acyclic(g, sink)
  }

  /** The pipeline for one source and one sink; `ends` are their positions among the instances. */
  method Create(g: Graph, roles: seq<Role>) returns (p: Pipeline, ends: Ends)
    requires WellFormed(g) && OneWay(g, roles) && |roles| == |g.plugins|
    ensures fresh(p) && CreatedRight(g, roles, p.instances, ends)
  {
    hide Acyclic, WellFormed, Compiled, Trouble, Upstream, Channels;
    p := new Pipeline();
    var source := FindEnabledBuiltin(g, roles, Source);
    var sink := FindEnabledBuiltin(g, roles, Sink);
    if source == |g.plugins| || sink == |g.plugins| {
      return p, NoPipeline;
    }
    var ok := SortFrom(g, p, sink);
    if !ok {
      return p, NoPipeline;
    }
    var i, k := FindInstance(p.instances, source), FindInstance(p.instances, sink);
    CompiledHas(g, sink, p.instances, source);
    CompiledHas(g, sink, p.instances, sink);
    SinkIsLast(g, sink, p.instances);
    if i == |p.instances| || k == |p.instances| {
      return p, NoPipeline;
    }
    if |p.instances[k].audioIn| > |p.instances[i].audioOut| {
      return p, NoPipeline;
    }
    return p, Ends(i, k);
  }

  lemma {:induction false} CompiledHas(g: Graph, sink: nat, instances: seq<Instance>, q: nat)
    requires Compiled(g, sink, instances) && q < |g.plugins| && !g.plugins[q].disabled
    ensures FindInstance(instances, q) < |instances| <==> Upstream(g, sink, q)
    ensures FindInstance(instances, q) < |instances| ==>
              var inst := instances[FindInstance(instances, q)];
              |inst.audioIn| == Channels(g, q, Input) && |inst.audioOut| == Channels(g, q, Output)
  {
    hide Upstream, PeersRight;
    assert IsUpstream(g, sink, q) <==> Upstream(g, sink, q);
    var i := FindInstance(instances, q);
    if i < |instances| {
      assert InstanceRight(g, instances[..i], instances[i]);
      assert |Inputs(instances[i], Audio)| == Channels(g, q, Input);
      assert |Outputs(instances[i], Audio)| == Channels(g, q, Output);
    }
  }

  lemma {:induction false} SinkIsLast(g: Graph, sink: nat, instances: seq<Instance>)
    requires Compiled(g, sink, instances) && LastIs(instances, sink)
    ensures FindInstance(instances, sink) == |instances| - 1
  {
  }

  /** What loading the module of a plugin gives: nothing, or a module with or without the in-place property. */
  datatype Module = NoModule | Module(inplaceBroken: bool)

  ghost predicate ModulesLoaded(instances: seq<Instance>, modules: seq<Module>) {
    forall i :: 0 <= i < |instances| ==>
      instances[i].plugin < |modules| && modules[instances[i].plugin] == Module(instances[i].inplaceBroken)
  }

  /** Every buffer is safe from its writer to its reader, and there are as many buffers as are ever in use at a time. */
  ghost predicate Allocated(instances: seq<Instance>, peak: nat)
    requires Forward(instances)
  {
    && SafeUpTo(instances, peak, |instances|) && BuffersFit(instances, peak)
    && (forall i :: 0 <= i < |instances| ==> NeedDuring(instances, i) <= peak)
    && (peak == 0 || exists i :: 0 <= i < |instances| && NeedDuring(instances, i) == peak)
  }

  ghost predicate PluginsBelow(instances: seq<Instance>, n: nat) {
    forall i :: 0 <= i < |instances| ==> instances[i].plugin < n
  }

  /** Loads the modules and assigns buffers; this fails exactly when an instance has no module. */
  method Load(p: Pipeline, modules: seq<Module>) returns (ok: bool)
    requires Forward(p.instances) && OneConsumer(p.instances) && PluginsBelow(p.instances, |modules|)
    modifies p
    ensures SameShape(old(p.instances), p.instances) && Forward(p.instances) && OneConsumer(p.instances)
    ensures ok <==> forall i :: 0 <= i < |old(p.instances)| ==> modules[old(p.instances)[i].plugin].Module?
    ensures ok ==> ModulesLoaded(p.instances, modules) && Allocated(p.instances, p.peakBuf)
  {
    hide Forward, OneConsumer, SafeUpTo, BuffersFit, SameShape, SameGraph, NeedDuring;
    ok := LoadModules(p, modules);
    ghost var was, loaded := old(p.instances), p.instances;
    SameShapeKeeps(was, loaded);
    if !ok {
      return;
    }
    AllocateBuffers(p);
    SafeFits(p.instances, p.peakBuf);
    GraphShape(was, loaded, p.instances);
    GraphModules(loaded, p.instances, modules);
  }

  method LoadModules(p: Pipeline, modules: seq<Module>) returns (ok: bool)
    requires PluginsBelow(p.instances, |modules|)
    modifies p`instances
    ensures SameShape(old(p.instances), p.instances)
    ensures ok <==> forall i :: 0 <= i < |old(p.instances)| ==> modules[old(p.instances)[i].plugin].Module?
    ensures ok ==> ModulesLoaded(p.instances, modules)
  {
    ghost var was := p.instances;
    for i := 0 to |p.instances|
      invariant |p.instances| == |was|
      invariant forall k :: 0 <= k < |was| ==> p.instances[k] == was[k].(inplaceBroken := p.instances[k].inplaceBroken)
      invariant forall k :: 0 <= k < i ==> modules[was[k].plugin] == Module(p.instances[k].inplaceBroken)
      invariant forall k :: i <= k < |was| ==> p.instances[k] == was[k]
    {
      match modules[p.instances[i].plugin]
      case NoModule =>
        return false;
      case Module(broken) =>
        p.instances := p.instances[i := p.instances[i].(inplaceBroken := broken)];
    }
    ok := true;
  }

  lemma {:induction false} GraphModules(a: seq<Instance>, b: seq<Instance>, modules: seq<Module>)
    requires SameGraph(a, b) && ModulesLoaded(a, modules)
    ensures ModulesLoaded(b, modules)
  {
    assert forall i :: 0 <= i < |a| ==> SameInstance(a[i], b[i]);
  }

  lemma {:induction false} GraphShape(a: seq<Instance>, b: seq<Instance>, c: seq<Instance>)
    requires SameShape(a, b) && SameGraph(b, c)
    ensures SameShape(a, c)
  {
    forall i | 0 <= i < |a|
      ensures SameForm(a[i], c[i])
    {
      assert SameForm(a[i], b[i]) && SameInstance(b[i], c[i]);
    }
  }

  lemma {:induction false} SameShapeKeeps(a: seq<Instance>, b: seq<Instance>)
    requires SameShape(a, b) && Forward(a) && OneConsumer(a)
    ensures Forward(b) && OneConsumer(b)
  {
    forall i: nat, k: nat
      ensures IsInput(a, i, k) <==> IsInput(b, i, k)
      ensures IsInput(a, i, k) ==> a[i].audioIn[k].peer == b[i].audioIn[k].peer
    {
      if i < |a| {
        assert SameForm(a[i], b[i]);
      }
    }
    forall r
      ensures IsOutput(a, r) <==> IsOutput(b, r)
    {
      if r.instance < |a| {
        assert SameForm(a[r.instance], b[r.instance]);
      }
    }
  }

  /** The same instances, connections and buffers; only delays may differ. */
  ghost predicate SameButDelays(a: seq<Instance>, b: seq<Instance>) {
    |a| == |b| && forall i :: 0 <= i < |a| ==> b[i] == a[i].(delay := b[i].delay, totalDelay := b[i].totalDelay)
  }

  /**
   * Instantiates the modules, of which `delays` has those that can be and the delay each then reports. Every instance
   * ends with the delay of the longest path to it; the delay reported for the pipeline is that of its sink.
   */
  method Instantiate(p: Pipeline, delays: seq<Option<int>>) returns (ok: bool)
    requires Forward(p.instances) && PluginsDistinct(p.instances) && PluginsBelow(p.instances, |delays|)
    modifies p`instances
    ensures SameButDelays(old(p.instances), p.instances)
    ensures ok <==> forall i :: 0 <= i < |p.instances| ==>
              p.instances[i].plugin < |delays| && delays[p.instances[i].plugin].Some?
    ensures ok ==> Forward(p.instances) && forall i: nat :: i < |p.instances| ==>
              && delays[p.instances[i].plugin] == Some(p.instances[i].delay)
              && LongestPathTo(p.instances, i, p.instances[i].totalDelay)
  {
    ghost var was := p.instances;
    for i := 0 to |p.instances|
      invariant SameButDelays(was, p.instances)
      invariant forall k :: 0 <= k < i ==> delays[was[k].plugin] == Some(p.instances[k].delay)
    {
      match delays[p.instances[i].plugin]
      case None =>
        assert delays[was[i].plugin].None?;
        return false;
      case Some(delay) =>
        p.instances := p.instances[i := p.instances[i].(delay := delay)];
    }
    DelaysKeep(was, p.instances);
    ghost var told := p.instances;
    CalculateAudioDelay(p);
    hide LongestPathTo;
    DelaysKeep(told, p.instances);
    ok := true;
  }

  lemma {:induction false} DelaysKeep(a: seq<Instance>, b: seq<Instance>)
    requires SameButDelays(a, b) && Forward(a) && PluginsDistinct(a)
    ensures Forward(b) && PluginsDistinct(b)
  {
    forall i: nat, k: nat | IsInput(b, i, k)
      ensures IsOutput(b, b[i].audioIn[k].peer) && b[i].audioIn[k].peer.instance < i
    {
      assert IsInput(a, i, k);
    }
  }

  // ----- the whole way -----

  /**
   * A pipeline made from a graph whose audio flows have one reader each has an instance for every enabled plugin
   * upstream of its sink, and its buffers never carry anything but what the reader waits for.
   */
  method CreateAndLoad(g: Graph, roles: seq<Role>, modules: seq<Module>) returns (p: Pipeline, ends: Ends, loaded: bool)
    requires WellFormed(g) && OneWay(g, roles) && |roles| == |g.plugins| == |modules| && SingleConsumer(g)
    ensures fresh(p) && CreatedRight(g, roles, p.instances, ends)
    ensures ends.Ends? ==> Forward(p.instances) && OneConsumer(p.instances)
    ensures loaded <==> ends.Ends? && PluginsBelow(p.instances, |modules|)
                        && forall i :: 0 <= i < |p.instances| ==> modules[p.instances[i].plugin].Module?
    ensures loaded ==> ModulesLoaded(p.instances, modules) && Allocated(p.instances, p.peakBuf)
  {
    hide CanCreate, OneWay, WellFormed, SingleConsumer, Compiled, Forward, OneConsumer, Allocated, SameShape;
    p, ends := Create(g, roles);
    if ends.NoPipeline? {
      loaded := false;
      return;
    }

    ghost var made := p.instances;
    ghost var sink := p.instances[ends.sink].plugin;
    CompiledIsForward(g, sink, made);
    CompiledInRange(g, sink, made);
    loaded := Load(p, modules);
    SameCompiled(g, sink, made, p.instances);
    SameShapePlugins(made, p.instances);
    SameShapePorts(made, p.instances);
  }

  lemma {:induction false} CompiledInRange(g: Graph, sink: nat, instances: seq<Instance>)
    requires Compiled(g, sink, instances)
    ensures PluginsBelow(instances, |g.plugins|)
  {
    forall i | 0 <= i < |instances|
      ensures instances[i].plugin < |g.plugins|
    {
      assert InstanceRight(g, instances[..i], instances[i]);
    }
  }

  lemma {:induction false} SameShapePlugins(a: seq<Instance>, b: seq<Instance>)
    requires SameShape(a, b)
    ensures |a| == |b| && forall i :: 0 <= i < |a| ==> a[i].plugin == b[i].plugin
  {
    assert forall i :: 0 <= i < |a| ==> SameForm(a[i], b[i]);
  }

  /** When every instance but the source has an audio input, the source runs first and nobody overwrites its data. */
  lemma {:induction false} LoneSourceIsKept(instances: seq<Instance>, source: nat)
    requires Forward(instances) && source < |instances|
    requires forall i :: 0 <= i < |instances| && i != source ==> instances[i].audioIn != []
    ensures source == 0 && SourceKept(instances, source)
  {
    if source != 0 {
      assert IsInput(instances, 0, 0);
    }
  }
}
