/** A graph whose pipeline loses what the caller puts into the source, and one whose pipeline is never finished. */
module DspExample {
  import opened DspTypes
  import opened DspIni
  import opened DspTrails
  import opened DspSort
  import opened DspWalk
  import opened DspBuffers
  import opened DspRun
  import opened DspDelay
  import opened DspPipeline
  import opened DspPlay

  /** A generator feeds the source, which feeds the sink. */
  function Fountain(): Graph {
    Graph(
      [Plugin([Port(Output, Audio, InFlow(0))], false),
       Plugin([Port(Output, Audio, InFlow(1)), Port(Input, Audio, InFlow(0))], false),
       Plugin([Port(Input, Audio, InFlow(1))], false)],
      [Flow("{x}", At(0, 0), At(1, 1)), Flow("{s}", At(1, 0), At(2, 0))])
  }

  function FountainRoles(): seq<Role> {
    [Effect, Source, Sink]
  }

  lemma {:induction false} FountainPorts(g: Graph, p: nat, j: nat, f: nat)
    requires g == Fountain()
    ensures InFlowAt(g.plugins, p, j, f) <==>
              (p == 0 && j == 0 && f == 0) || (p == 1 && j == 0 && f == 1) || (p == 1 && j == 1 && f == 0)
                || (p == 2 && j == 0 && f == 1)
    ensures HasFlow(g, p, j) <==> IsPort(g.plugins, p, j)
    ensures From(g, 1, 0) == From(g, 2, 0) == At(1, 0) && From(g, 0, 0) == From(g, 1, 1) == At(0, 0)
  {
  }

  lemma {:induction false} FountainIsWellFormed()
    ensures WellFormed(Fountain()) && SingleConsumer(Fountain())
  {
    var g := Fountain();
    forall p: nat, j: nat, f: nat
      ensures InFlowAt(g.plugins, p, j, f) <==>
                (p == 0 && j == 0 && f == 0) || (p == 1 && j == 0 && f == 1) || (p == 1 && j == 1 && f == 0)
                  || (p == 2 && j == 0 && f == 1)
    {
      FountainPorts(g, p, j, f);
    }
  }

  lemma {:induction false} FountainIsAcyclic()
    ensures OneWay(Fountain(), FountainRoles())
  {
    forall p: nat, j: nat
      ensures var g := Fountain();
              HasFlow(g, p, j) ==>
                && From(g, p, j).At?
                && (From(g, p, j).plugin < p
                    || (From(g, p, j).plugin == p && g.plugins[p].ports[j].direction == Output))
    {
    }
    assert Ranked(Fountain(), [1, 2, 3]);
  }

  lemma {:induction false} FountainSelects()
    ensures var g := Fountain();
            && AudioPorts(g, 0, Input) == [] && AudioPorts(g, 0, Output) == [0]
            && AudioPorts(g, 1, Input) == [1] && AudioPorts(g, 1, Output) == [0]
            && AudioPorts(g, 2, Input) == [0] && AudioPorts(g, 2, Output) == []
  {
    var g := Fountain();
    var ports := g.plugins[1].ports;
    assert Select(ports, Input, Audio, 1) == [] && Select(ports, Output, Audio, 1) == [0];
  }

  lemma {:induction false} FountainHasNoTrouble()
    ensures !Trouble(Fountain(), 2)
  {
    var g := Fountain();
    forall q: nat, j: nat
      ensures !BrokenAt(g, q, j)
    {
      if IsPort(g.plugins, q, j) && g.plugins[q].ports[j].direction == Input {
        OriginHere(g, q, j);
      }
    }
  }

  lemma {:induction false} FountainUpstream(g: Graph)
    requires g == Fountain()
    ensures Upstream(g, 2, 1)
  {
    assert HasFlow(g, 2, 0) && Needs(g, 2, 1);
    UpstreamSelf(g, 1);
    UpstreamStep(g, 2, 1, 1);
  }

  lemma {:induction false} FountainEnds(g: Graph, roles: seq<Role>)
    requires g == Fountain() && roles == FountainRoles()
    ensures Sole(g, roles, Source, 1) && Sole(g, roles, Sink, 2)
  {
  }

  lemma {:induction false} FountainChannels(g: Graph)
    requires g == Fountain()
    ensures Channels(g, 2, Input) <= Channels(g, 1, Output)
  {
    FountainSelects();
    hide Select;
    assert Channels(g, 2, Input) == |AudioPorts(g, 2, Input)| && Channels(g, 1, Output) == |AudioPorts(g, 1, Output)|;
  }

  lemma {:induction false} FountainCanBeCreated()
    ensures CanCreate(Fountain(), FountainRoles(), 1, 2)
  {
    hide Fountain, FountainRoles, Sole, Trouble, Upstream, Channels;
    FountainHasNoTrouble();
    FountainUpstream(Fountain());
    FountainEnds(Fountain(), FountainRoles());
    FountainChannels(Fountain());
  }

  // ----- its pipeline -----

  /** The instances stand in the order of the flows. */
  lemma {:induction false} FountainOrder(instances: seq<Instance>)
    requires Compiled(Fountain(), 2, instances) && Forward(instances)
    ensures |instances| == 3 && forall i :: 0 <= i < 3 ==> instances[i].plugin == i
    ensures |instances[0].audioIn| == 0 && |instances[0].audioOut| == 1 && |instances[1].audioIn| == 1
            && |instances[1].audioOut| == 1
    ensures |instances[2].audioIn| == 1 && |instances[2].audioOut| == 0 && instances[2].audioIn[0].peer == PortRef(1, 0)
  {
    hide Fountain, Compiled, Forward, AudioPorts;
    var e, s, k := FindInstance(instances, 0), FindInstance(instances, 1), FindInstance(instances, 2);
    FountainAllBuilt(instances);
    AtMostThree(Fountain(), instances);
    FountainPeer(instances, s, 1, 1);
    FountainPeer(instances, k, 2, 0);
    InOrder(instances, e, s, k);
    FountainShape(instances, 0);
    FountainShape(instances, 1);
    FountainShape(instances, 2);
  }

  lemma {:induction false} InOrder(instances: seq<Instance>, e: nat, s: nat, k: nat)
    requires PluginsDistinct(instances) && |instances| <= 3 && e < |instances| && s < |instances| && k < |instances|
    requires instances[e].plugin == 0 && instances[s].plugin == 1 && instances[k].plugin == 2
    requires IsInput(instances, s, 0) && instances[s].audioIn[0].peer.instance < s
    requires instances[instances[s].audioIn[0].peer.instance].plugin == 0
    requires IsInput(instances, k, 0) && instances[k].audioIn[0].peer.instance < k
    requires instances[instances[k].audioIn[0].peer.instance].plugin == 1
    ensures |instances| == 3 && e == 0 && s == 1 && k == 2
  {
    assert instances[s].audioIn[0].peer.instance == e;
    assert instances[k].audioIn[0].peer.instance == s;
  }

  lemma {:induction false} FountainShape(instances: seq<Instance>, i: nat)
    requires Compiled(Fountain(), 2, instances) && i < |instances|
    ensures instances[i].plugin < 3
    ensures |instances[i].audioIn| == (if instances[i].plugin == 0 then 0 else 1)
    ensures |instances[i].audioOut| == (if instances[i].plugin == 2 then 0 else 1)
  {
    InstancePlays(Fountain(), 2, instances, i);
    hide Compiled, Upstream, Select;
    FountainSelects();
  }

  lemma {:induction false} FountainAllBuilt(instances: seq<Instance>)
    requires Compiled(Fountain(), 2, instances)
    ensures forall q: nat :: q < 3 ==> FindInstance(instances, q) < |instances|
    ensures PluginsDistinct(instances)
  {
    var g := Fountain();
    assert HasFlow(g, 2, 0) && Needs(g, 2, 1) && HasFlow(g, 1, 1) && Needs(g, 1, 0);
    UpstreamSelf(g, 0);
    UpstreamSelf(g, 2);
    UpstreamStep(g, 1, 0, 0);
    UpstreamStep(g, 2, 1, 0);
    UpstreamSelf(g, 1);
    UpstreamStep(g, 2, 1, 1);
    hide Upstream;
    assert IsUpstream(g, 2, 0) && IsUpstream(g, 2, 1) && IsUpstream(g, 2, 2);
  }

  lemma {:induction false} AtMostThree(g: Graph, instances: seq<Instance>)
    requires g == Fountain() && Compiled(g, 2, instances)
    ensures |instances| <= 3
  {
    CompiledInRange(g, 2, instances);
    if |instances| > 3 {
      PluginsDiffer(g, 2, instances, 0, 1);
      PluginsDiffer(g, 2, instances, 0, 2);
      PluginsDiffer(g, 2, instances, 0, 3);
      PluginsDiffer(g, 2, instances, 1, 2);
      PluginsDiffer(g, 2, instances, 1, 3);
      PluginsDiffer(g, 2, instances, 2, 3);
      hide Compiled;
      assert false;
    }
  }

  lemma {:induction false} FountainOrigin(p: nat, j: nat)
    requires (p == 1 && j == 1) || (p == 2 && j == 0)
    ensures AudioPorts(Fountain(), p, Input) == [j] && Origin(Fountain(), p, j, At(p - 1, 0))
  {
    FountainSelects();
    OriginHere(Fountain(), p, j);
  }

  /** The only audio input of the instance is fed by the instance of the plugin at the other end of the flow. */
  lemma {:induction false} FountainPeer(instances: seq<Instance>, i: nat, p: nat, j: nat)
    requires Compiled(Fountain(), 2, instances) && Forward(instances) && i < |instances|
    requires instances[i].plugin == p && ((p == 1 && j == 1) || (p == 2 && j == 0))
    ensures IsInput(instances, i, 0) && IsOutput(instances, instances[i].audioIn[0].peer)
    ensures instances[i].audioIn[0].peer.instance < i
            && OutputOf(instances, instances[i].audioIn[0].peer) == At(p - 1, 0)
    ensures |AudioPorts(Fountain(), p, Input)| == 1
  {
    hide Compiled, Upstream, Select, Origin, Fountain;
    InstancePlays(Fountain(), 2, instances, i);
    FountainOrigin(p, j);
    assert IsInput(instances, i, 0);
    PeerIsOrigin(Fountain(), 2, instances, i, 0);
    OriginUnique(Fountain(), p, j, At(p - 1, 0), OutputOf(instances, instances[i].audioIn[0].peer));
  }

  /**
   * One buffer is enough, so all ports share it, and the generator writes over what the caller has put into the source.
   */
  lemma {:induction false} FountainSpills(instances: seq<Instance>, peak: nat)
    requires Compiled(Fountain(), 2, instances) && Forward(instances) && Allocated(instances, peak)
    requires forall i :: 0 <= i < |instances| ==> !instances[i].inplaceBroken
    ensures |instances| == 3 && !SourceKept(instances, 1) && !RunsAsPrivate(instances, 1, peak)
  {
    hide *;
    FountainOrder(instances);
    OneBuffer(instances, peak);
  }

  lemma {:induction false} OneBuffer(instances: seq<Instance>, peak: nat)
    requires Forward(instances) && Allocated(instances, peak) && |instances| == 3
    requires forall i :: 0 <= i < |instances| ==> !instances[i].inplaceBroken
    requires |instances[0].audioIn| == 0 && |instances[0].audioOut| == 1 && |instances[1].audioIn| == 1
             && |instances[1].audioOut| == 1
    requires |instances[2].audioIn| == 1 && |instances[2].audioOut| == 0
             && instances[2].audioIn[0].peer == PortRef(1, 0)
    ensures !SourceKept(instances, 1) && !RunsAsPrivate(instances, 1, peak)
  {
    hide Forward, SafeUpTo, NeedDuring, RunsAsPrivate;
    FountainNeeds(instances);
    var r := PortRef(1, 0);
    assert instances[0].audioOut[0].buf == 0 && instances[1].audioOut[0].buf == 0;
    assert WritesBuffer(instances[0], BufferOf(instances, r));
    assert IsInput(instances, 2, 0) && ReadAt(instances, 2, r) && IsRead(instances, r);
    SharedIsPrivateIff(instances, 1, peak);
  }

  lemma {:induction false} FountainNeeds(instances: seq<Instance>)
    requires |instances| == 3 && forall i :: 0 <= i < |instances| ==> !instances[i].inplaceBroken
    requires |instances[0].audioIn| == 0 && |instances[0].audioOut| == 1 && |instances[1].audioIn| == 1
             && |instances[1].audioOut| == 1
    requires |instances[2].audioIn| == 1 && |instances[2].audioOut| == 0
    ensures NeedDuring(instances, 0) == 1 && NeedDuring(instances, 1) == 1 && NeedDuring(instances, 2) == 0
  {
    assert NeedAfter(instances, 1) == 1;
    assert NeedAfter(instances, 2) == 1;
  }

  /**
   * The pipeline of this graph is made and loaded without complaint, and what the caller puts into the source is lost.
   */
  method FountainIsLoaded() returns (p: Pipeline, ends: Ends)
    ensures fresh(p) && ends == Ends(1, 2) && Forward(p.instances) && Allocated(p.instances, p.peakBuf)
    ensures !SourceKept(p.instances, ends.source) && !RunsAsPrivate(p.instances, ends.source, p.peakBuf)
  {
    var g, roles, modules := Fountain(), FountainRoles(), [Module(false), Module(false), Module(false)];
    FountainIsWellFormed();
    FountainIsAcyclic();
    FountainCanBeCreated();
    var loaded;
    hide CanCreate, WellFormed, OneWay, SingleConsumer, Compiled, Forward, OneConsumer, Allocated, SourceKept,
         RunsAsPrivate;
    p, ends, loaded := CreateAndLoad(g, roles, modules);
    NotBoth(g, roles, p.instances, ends);
    var source, sink := p.instances[ends.source].plugin, p.instances[ends.sink].plugin;
    SoleRoles(source, sink);
    CompiledInRange(g, 2, p.instances);
    FountainOrder(p.instances);
    FountainSpills(p.instances, p.peakBuf);
  }

  lemma {:induction false} SoleRoles(source: nat, sink: nat)
    requires CanCreate(Fountain(), FountainRoles(), source, sink)
    ensures source == 1 && sink == 2
  {
    hide Trouble, Upstream, Channels;
  }

  // ----- a graph on which the search for an origin does not end -----

  /** A disabled plugin that feeds itself and the sink, and a source that feeds the sink too. */
  function Eddy(): Graph {
    Graph(
      [Plugin([Port(Input, Audio, InFlow(0)), Port(Output, Audio, InFlow(0))], true),
       Plugin([Port(Input, Audio, InFlow(0)), Port(Input, Audio, InFlow(1))], false),
       Plugin([Port(Output, Audio, InFlow(1))], false)],
      [Flow("{x}", At(0, 1), At(1, 0)), Flow("{s}", At(2, 0), At(1, 1))])
  }

  function EddyRoles(): seq<Role> {
    [Effect, Sink, Source]
  }

  lemma {:induction false} EddyPorts(g: Graph, p: nat, j: nat, f: nat)
    requires g == Eddy()
    ensures InFlowAt(g.plugins, p, j, f) <==>
              || (p == 0 && j == 0 && f == 0) || (p == 0 && j == 1 && f == 0) || (p == 1 && j == 0 && f == 0)
              || (p == 1 && j == 1 && f == 1) || (p == 2 && j == 0 && f == 1)
  {
  }

  lemma {:induction false} EddyIsWellFormed()
    ensures WellFormed(Eddy())
  {
    var g := Eddy();
    forall p: nat, j: nat, f: nat
      ensures InFlowAt(g.plugins, p, j, f) <==>
                || (p == 0 && j == 0 && f == 0) || (p == 0 && j == 1 && f == 0) || (p == 1 && j == 0 && f == 0)
                || (p == 1 && j == 1 && f == 1) || (p == 2 && j == 0 && f == 1)
    {
      EddyPorts(g, p, j, f);
    }
  }

  lemma {:induction false} EddyBypasses()
    ensures Bypassed(Eddy(), At(0, 1), At(0, 0))
  {
    var ports := Eddy().plugins[0].ports;
    assert |ports| == 2;
    assert Select(ports, Output, Audio, 1) == [] && Select(ports, Output, Audio, 2) == [1];
    assert Select(ports, Input, Audio, 0) == [] && Select(ports, Input, Audio, 1) == [0];
    assert Select(ports, Input, Audio, 2) == [0];
    assert KindAt(Eddy(), At(0, 1)) == Audio;
    assert NthOf(Eddy(), At(0, 1), Output, Audio, 0) && NthOf(Eddy(), At(0, 0), Input, Audio, 0);
  }

  lemma {:induction false} EddyEnds(g: Graph, roles: seq<Role>)
    requires g == Eddy() && roles == EddyRoles()
    ensures Sole(g, roles, Source, 2) && Sole(g, roles, Sink, 1) && Upstream(g, 1, 2)
  {
    assert HasFlow(g, 1, 1) && Needs(g, 1, 2);
    UpstreamSelf(g, 2);
    UpstreamStep(g, 1, 2, 2);
    hide Upstream;
  }

  lemma {:induction false} EddyGoesRound(fuel: nat)
    ensures Follow(Eddy(), 1, 0, fuel).Running?
  {
    EddyBypasses();
    hide Bypassed, Follow;
    var g := Eddy();
    var way := [At(1, 0), At(0, 0), At(0, 0)];
    assert From(g, 1, 0) == At(0, 1) && From(g, 0, 0) == At(0, 1);
    assert StepAt(g, way, 0) && StepAt(g, way, 1);
    EddyCircles(way);
    CirclingNeverEnds(g, 1, 0, fuel);
  }

  /**
   * The graph has one enabled source and one enabled sink, and the source is upstream of the sink; but looking for the
   * origin of the first input of the sink never ends.
   */
  lemma {:induction false} EddyNeverEnds(fuel: nat)
    ensures WellFormed(Eddy()) && Sole(Eddy(), EddyRoles(), Source, 2) && Sole(Eddy(), EddyRoles(), Sink, 1)
    ensures Upstream(Eddy(), 1, 2) && Follow(Eddy(), 1, 0, fuel).Running?
  {
    EddyIsWellFormed();
    EddyEnds(Eddy(), EddyRoles());
    EddyGoesRound(fuel);
  }

  lemma {:induction false} EddyCircles(way: seq<Endpoint>)
    requires way == [At(1, 0), At(0, 0), At(0, 0)] && StepAt(Eddy(), way, 0) && StepAt(Eddy(), way, 1)
    ensures Circles(Eddy(), 1, 0)
  {
    hide StepAt;
    assert Way(Eddy(), way) && way[1] == way[2];
  }
}
