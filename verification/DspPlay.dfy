/** What a pipeline plays, told by its graph: plugins and flows, without instances or buffers. */
module DspPlay {
  import opened Options
  import opened DspTypes
  import opened DspIni
  import opened DspTrails
  import opened DspSort
  import opened DspBuffers
  import opened DspRun
  import opened DspDelay
  import opened DspPipeline

  /**
   * `module_(p, j, ins)` is what plugin `p` puts out on port `j` when its audio inputs carry `ins`; `external(j)` is
   * the channel the caller puts into output port `j` of the source.
   */
  datatype Play<!B> = Play(source: nat, external: nat -> B, module_: (nat, nat, seq<B>) -> B)

  function AudioPorts(g: Graph, p: nat, direction: Direction): seq<nat>
    requires p < |g.plugins|
  {
    Select(g.plugins[p].ports, direction, Audio, |g.plugins[p].ports|)
  }

  ghost predicate Plays(g: Graph, sink: nat, p: nat) {
    p < |g.plugins| && !g.plugins[p].disabled && Upstream(g, sink, p)
  }

  /** Every audio input of an enabled plugin upstream of the sink has an origin, in a plugin of lower rank. */
  ghost predicate Fed(g: Graph, rank: seq<nat>, sink: nat) {
    && |rank| == |g.plugins|
    && forall p: nat, k: nat :: Plays(g, sink, p) && k < |AudioPorts(g, p, Input)| ==>
         FedAt(g, rank, sink, p, AudioPorts(g, p, Input)[k])
  }

  ghost predicate FedAt(g: Graph, rank: seq<nat>, sink: nat, p: nat, j: nat)
    requires p < |rank|
  {
    exists r :: Origin(g, p, j, r) && r.At? && Plays(g, sink, r.plugin) && r.plugin < |rank| && rank[r.plugin] < rank[p]
  }

  /** What leaves output port `j` of plugin `p`. */
  ghost function Leaves<B>(g: Graph, rank: seq<nat>, sink: nat, play: Play<B>, p: nat, j: nat): B
    requires Fed(g, rank, sink) && Plays(g, sink, p)
    decreases rank[p], 1
  {
    if p == play.source then play.external(j) else play.module_(p, j, Arrives(g, rank, sink, play, p))
  }

  /** What arrives at the audio inputs of plugin `p`: each carries what leaves its origin. */
  ghost function Arrives<B>(g: Graph, rank: seq<nat>, sink: nat, play: Play<B>, p: nat): (ins: seq<B>)
    requires Fed(g, rank, sink) && Plays(g, sink, p)
    ensures |ins| == |AudioPorts(g, p, Input)|
    decreases rank[p], 0
  {
    seq(|AudioPorts(g, p, Input)|, k requires 0 <= k < |AudioPorts(g, p, Input)| =>
      assert FedAt(g, rank, sink, p, AudioPorts(g, p, Input)[k]);
      var r :| Origin(g, p, AudioPorts(g, p, Input)[k], r) && r.At? && Plays(g, sink, r.plugin)
        && rank[r.plugin] < rank[p];
      Leaves(g, rank, sink, play, r.plugin, r.port))
  }

  lemma {:induction false} ArrivesAt<B>(g: Graph, rank: seq<nat>, sink: nat, play: Play<B>, p: nat, k: nat, r: Endpoint)
    requires Fed(g, rank, sink) && Plays(g, sink, p) && k < |AudioPorts(g, p, Input)|
    requires Origin(g, p, AudioPorts(g, p, Input)[k], r)
    ensures r.At? && Plays(g, sink, r.plugin)
    ensures Arrives(g, rank, sink, play, p)[k] == Leaves(g, rank, sink, play, r.plugin, r.port)
  {
    var j := AudioPorts(g, p, Input)[k];
    assert FedAt(g, rank, sink, p, j);
    forall r' | Origin(g, p, j, r')
      ensures r' == r
    {
      OriginUnique(g, p, j, r, r');
    }
  }

  // ----- the instances know the origins -----

  lemma {:induction false} TrailFalls(g: Graph, rank: seq<nat>, trail: seq<Endpoint>, r: Endpoint)
    requires WellFormed(g) && Ranked(g, rank) && Trail(g, trail, r) && HasRank(rank, trail[0].plugin)
    ensures r.plugin < |rank| && trail[0].plugin < |rank| && rank[r.plugin] < rank[trail[0].plugin]
    decreases |trail|
  {
    hide WellFormed, Bypassed, StepAt;
    TrailAt(g, trail, r, 0);
    RankedStep(g, rank, trail[0].plugin, trail[0].port);
    if |trail| > 1 {
      TrailRest(g, trail, r);
      StandInSide(g, From(g, trail[0].plugin, trail[0].port), trail[1]);
      TrailFalls(g, rank, trail[1..], r);
    }
  }

  lemma {:induction false} StandInSide(g: Graph, o: Endpoint, i: Endpoint)
    requires Bypassed(g, o, i)
    ensures o.At? && o.plugin == i.plugin
  {
  }

  lemma {:induction false} OriginFalls(g: Graph, rank: seq<nat>, p: nat, j: nat, r: Endpoint)
    requires WellFormed(g) && Ranked(g, rank) && Origin(g, p, j, r) && HasRank(rank, p)
    ensures r.At? && r.plugin < |rank| && p < |rank| && rank[r.plugin] < rank[p]
  {
    var trail: seq<Endpoint> :| Trail(g, trail, r) && trail[0] == At(p, j);
    TrailFalls(g, rank, trail, r);
  }

  lemma {:induction false} InstancePorts(g: Graph, earlier: seq<Instance>, inst: Instance)
    requires InstanceRight(g, earlier, inst)
    ensures inst.plugin < |g.plugins| && !g.plugins[inst.plugin].disabled
    ensures Inputs(inst, Audio) == AudioPorts(g, inst.plugin, Input)
    ensures Outputs(inst, Audio) == AudioPorts(g, inst.plugin, Output)
  {
    hide PeersRight, Select;
  }

  lemma {:induction false} PortsAt(inst: Instance)
    ensures |inst.audioIn| == |Inputs(inst, Audio)| && |inst.audioOut| == |Outputs(inst, Audio)|
    ensures forall k :: 0 <= k < |inst.audioIn| ==> inst.audioIn[k].original == Inputs(inst, Audio)[k]
    ensures forall k :: 0 <= k < |inst.audioOut| ==> inst.audioOut[k].original == Outputs(inst, Audio)[k]
  {
  }

  lemma {:induction false} InstancePlays(g: Graph, sink: nat, instances: seq<Instance>, i: nat)
    requires Compiled(g, sink, instances) && i < |instances|
    ensures Plays(g, sink, instances[i].plugin)
    ensures |instances[i].audioIn| == |AudioPorts(g, instances[i].plugin, Input)|
    ensures |instances[i].audioOut| == |AudioPorts(g, instances[i].plugin, Output)|
    ensures forall k :: 0 <= k < |instances[i].audioIn| ==>
              instances[i].audioIn[k].original == AudioPorts(g, instances[i].plugin, Input)[k]
    ensures forall k :: 0 <= k < |instances[i].audioOut| ==>
              instances[i].audioOut[k].original == AudioPorts(g, instances[i].plugin, Output)[k]
  {
    hide Upstream, InstanceRight, PluginsDistinct, Inputs, Outputs, AudioPorts;
    InstancePorts(g, instances[..i], instances[i]);
    PortsAt(instances[i]);
  }

  /** The output port of the graph that an output of an instance is. */
  function OutputOf(instances: seq<Instance>, r: PortRef): Endpoint
    requires IsOutput(instances, r)
  {
    At(instances[r.instance].plugin, instances[r.instance].audioOut[r.port].original)
  }

  lemma {:induction false} PeerIsOrigin(g: Graph, sink: nat, instances: seq<Instance>, i: nat, k: nat)
    requires Compiled(g, sink, instances) && IsInput(instances, i, k)
    ensures var r := instances[i].audioIn[k].peer;
            IsOutput(instances, r)
              && Origin(g, instances[i].plugin, instances[i].audioIn[k].original, OutputOf(instances, r))
  {
    hide Origin, Compiled;
    CompiledInput(g, sink, instances, i, k);
  }

  /** Every plugin upstream of one with a rank has a rank. */
  lemma {:induction false} UpstreamRanked(g: Graph, rank: seq<nat>, p: nat, q: nat)
    requires WellFormed(g) && Ranked(g, rank) && HasRank(rank, p) && Upstream(g, p, q)
    ensures HasRank(rank, q)
  {
    var path :| Chain(g, path) && path[0] == p && path[|path| - 1] == q;
    hide Upstream;
    ChainRanked(g, rank, path, |path| - 1);
  }

  lemma {:induction false} ChainRanked(g: Graph, rank: seq<nat>, path: seq<nat>, t: nat)
    requires WellFormed(g) && Ranked(g, rank) && Chain(g, path) && HasRank(rank, path[0]) && t < |path|
    ensures HasRank(rank, path[t])
  {
    if t > 0 {
      ChainRanked(g, rank, path, t - 1);
      assert Needs(g, path[t - 1], path[t - 1 + 1]);
      var j: nat :| HasFlow(g, path[t - 1], j) && From(g, path[t - 1], j).At?
        && From(g, path[t - 1], j).plugin == path[t];
      FromIsOutput(g, path[t - 1], j);
    }
  }

  lemma {:induction false} CompiledIsFed(g: Graph, rank: seq<nat>, sink: nat, instances: seq<Instance>)
    requires WellFormed(g) && Ranked(g, rank) && HasRank(rank, sink) && Compiled(g, sink, instances)
    ensures Fed(g, rank, sink)
  {
    hide WellFormed, Ranked, Origin, Upstream, AudioPorts;
    assert |rank| == |g.plugins| by {
      RankForEach(g, rank);
    }
    forall p: nat, k: nat | Plays(g, sink, p) && k < |AudioPorts(g, p, Input)|
      ensures FedAt(g, rank, sink, p, AudioPorts(g, p, Input)[k])
    {
      assert IsUpstream(g, sink, p);
      var i := FindInstance(instances, p);
      hide Compiled;
      InstanceIsFed(g, rank, sink, instances, i, k);
    }
  }

  lemma {:induction false} RankForEach(g: Graph, rank: seq<nat>)
    requires Ranked(g, rank)
    ensures |rank| == |g.plugins|
  {
  }

  lemma {:induction false} InstanceIsFed(g: Graph, rank: seq<nat>, sink: nat, instances: seq<Instance>, i: nat, k: nat)
    requires WellFormed(g) && Ranked(g, rank) && HasRank(rank, sink) && Compiled(g, sink, instances) && i < |instances|
    requires instances[i].plugin < |g.plugins| && k < |AudioPorts(g, instances[i].plugin, Input)|
    ensures instances[i].plugin < |rank|
            && FedAt(g, rank, sink, instances[i].plugin, AudioPorts(g, instances[i].plugin, Input)[k])
  {
    hide WellFormed, Ranked, Origin, Compiled, Upstream, AudioPorts;
    InstancePlays(g, sink, instances, i);
    PeerIsOrigin(g, sink, instances, i, k);
    var r := OutputOf(instances, instances[i].audioIn[k].peer);
    InstancePlays(g, sink, instances, instances[i].audioIn[k].peer.instance);
    UpstreamRanked(g, rank, sink, instances[i].plugin);
    OriginFalls(g, rank, instances[i].plugin, instances[i].audioIn[k].original, r);
  }

  /**
   * Only a graph in which audio flows one way among the enabled plugins upstream of the sink can have its instances in
   * order: the positions of the instances rank the plugins.
   */
  lemma {:induction false} OnlyOneWayCompiles(g: Graph, sink: nat, instances: seq<Instance>) returns (rank: seq<nat>)
    requires Compiled(g, sink, instances)
    ensures Fed(g, rank, sink)
  {
    rank := seq(|g.plugins|, p requires 0 <= p < |g.plugins| => FindInstance(instances, p));
    forall p: nat, k: nat | Plays(g, sink, p) && k < |AudioPorts(g, p, Input)|
      ensures FedAt(g, rank, sink, p, AudioPorts(g, p, Input)[k])
    {
      hide Upstream, Origin, AudioPorts;
      assert IsUpstream(g, sink, p);
      PositionFalls(g, sink, instances, rank, p, k);
    }
  }

  lemma {:induction false} PositionFalls(g: Graph, sink: nat, instances: seq<Instance>, rank: seq<nat>, p: nat, k: nat)
    requires Compiled(g, sink, instances) && Plays(g, sink, p) && k < |AudioPorts(g, p, Input)|
    requires FindInstance(instances, p) < |instances|
    requires |rank| == |g.plugins| && forall q :: 0 <= q < |rank| ==> rank[q] == FindInstance(instances, q)
    ensures FedAt(g, rank, sink, p, AudioPorts(g, p, Input)[k])
  {
    hide Upstream, Origin, AudioPorts;
    var i := FindInstance(instances, p);
    InstancePlays(g, sink, instances, i);
    PeerIsOrigin(g, sink, instances, i, k);
    CompiledInput(g, sink, instances, i, k);
    var peer := instances[i].audioIn[k].peer;
    InstancePlays(g, sink, instances, peer.instance);
    FindsTheInstance(instances, peer.instance);
    var r := OutputOf(instances, peer);
    hide Compiled, Plays, FindInstance;
    assert rank[r.plugin] < rank[p];
  }

  // ----- the run of the instances is the play of the graph -----

  /** The play as a run of the instances of the pipeline. */
  function SoundOf<B>(instances: seq<Instance>, play: Play<B>): Sound<B>
    requires instances != []
  {
    Sound(
      FindInstance(instances, play.source), |instances| - 1,
      k => if IsOutput(instances, PortRef(FindInstance(instances, play.source), k))
        then play.external(OutputOf(instances, PortRef(FindInstance(instances, play.source), k)).port)
        else play.external(k),
      (i, k, ins) => if IsOutput(instances, PortRef(i, k))
        then play.module_(OutputOf(instances, PortRef(i, k)).plugin, OutputOf(instances, PortRef(i, k)).port, ins)
        else play.module_(i, k, ins))
  }

  /** What a private buffer would hold is what leaves the port it belongs to. */
  lemma {:induction false} ValueLeaves<B>(g: Graph, rank: seq<nat>, sink: nat, instances: seq<Instance>, play: Play<B>,
                                          r: PortRef)
    requires Compiled(g, sink, instances) && Forward(instances) && Fed(g, rank, sink) && IsOutput(instances, r)
    ensures var out := OutputOf(instances, r);
            Plays(g, sink, out.plugin)
              && Value(instances, SoundOf(instances, play), r) == Leaves(g, rank, sink, play, out.plugin, out.port)
    decreases r.instance, 1
  {
    hide Fed, Upstream, Forward;
    var out := OutputOf(instances, r);
    InstancePlays(g, sink, instances, r.instance);
    InputsArrive(g, rank, sink, instances, play, r.instance);
    FindsTheInstance(instances, r.instance);
    hide Compiled;
  }

  lemma {:induction false} InputsArrive<B>(g: Graph, rank: seq<nat>, sink: nat, instances: seq<Instance>, play: Play<B>,
                                           i: nat)
    requires Compiled(g, sink, instances) && Forward(instances) && Fed(g, rank, sink) && i < |instances|
    ensures Plays(g, sink, instances[i].plugin)
    ensures PrivateInputs(instances, SoundOf(instances, play), i) == Arrives(g, rank, sink, play, instances[i].plugin)
    decreases i, 0
  {
    hide Fed, Compiled, Upstream, Origin, AudioPorts, SoundOf;
    InstancePlays(g, sink, instances, i);
    var p, sound := instances[i].plugin, SoundOf(instances, play);
    forall k | 0 <= k < |instances[i].audioIn|
      ensures PrivateInputs(instances, sound, i)[k] == Arrives(g, rank, sink, play, p)[k]
    {
      assert IsInput(instances, i, k);
      var r := instances[i].audioIn[k].peer;
      PeerIsOrigin(g, sink, instances, i, k);
      ValueLeaves(g, rank, sink, instances, play, r);
      ArrivesAt(g, rank, sink, play, p, k, OutputOf(instances, r));
    }
  }

  // ----- one chunk through the pipeline -----

  /** The audio channels of the plugin are its first ports. */
  ghost predicate Numbered(g: Graph, p: nat, direction: Direction) {
    p < |g.plugins| && forall k :: 0 <= k < |AudioPorts(g, p, direction)| ==> AudioPorts(g, p, direction)[k] == k
  }

  ghost predicate NumberedOutputs(inst: Instance) {
    forall k :: 0 <= k < |inst.audioOut| ==> inst.audioOut[k].original == k
  }

  ghost predicate NumberedInputs(inst: Instance) {
    forall k :: 0 <= k < |inst.audioIn| ==> inst.audioIn[k].original == k
  }

  /** The position of the port with the given number. */
  method FindSourcePort(inst: Instance, index: nat) returns (k: nat)
    requires NumberedOutputs(inst) && index < |inst.audioOut|
    ensures k == index
  {
    k := 0;
    while inst.audioOut[k].original != index
      invariant k <= index
    {
      k := k + 1;
    }
  }

  method FindSinkPort(inst: Instance, index: nat) returns (k: nat)
    requires NumberedInputs(inst) && index < |inst.audioIn|
    ensures k == index
  {
    k := 0;
    while inst.audioIn[k].original != index
      invariant k <= index
    {
      k := k + 1;
    }
  }

  /** Puts each channel into the buffer of the source port of the same number. */
  method FillSource<B>(inst: Instance, external: nat -> B, bufs: array<B>)
    requires NumberedOutputs(inst) && DistinctOutputs(inst)
    requires forall k :: 0 <= k < |inst.audioOut| ==> inst.audioOut[k].buf < bufs.Length
    modifies bufs
    ensures forall k :: 0 <= k < |inst.audioOut| ==> bufs[inst.audioOut[k].buf] == external(k)
  {
    for i := 0 to |inst.audioOut|
      invariant forall k :: 0 <= k < i ==> bufs[inst.audioOut[k].buf] == external(k)
    {
      var k := FindSourcePort(inst, i);
      bufs[inst.audioOut[k].buf] := external(i);
    }
  }

  method DrainSink<B>(inst: Instance, bufs: array<B>) returns (heard: seq<B>)
    requires NumberedInputs(inst) && forall k :: 0 <= k < |inst.audioIn| ==> inst.audioIn[k].buf < bufs.Length
    ensures |heard| == |inst.audioIn| && forall k :: 0 <= k < |heard| ==> heard[k] == bufs[inst.audioIn[k].buf]
  {
    heard := [];
    for i := 0 to |inst.audioIn|
      invariant |heard| == i && forall k :: 0 <= k < i ==> heard[k] == bufs[inst.audioIn[k].buf]
    {
      var k := FindSinkPort(inst, i);
      heard := heard + [bufs[inst.audioIn[k].buf]];
    }
  }

  /** A pipeline as it is made and loaded. */
  ghost predicate Ready(g: Graph, roles: seq<Role>, instances: seq<Instance>, peak: nat, ends: Ends) {
    && CreatedRight(g, roles, instances, ends) && ends.Ends?
    && Forward(instances) && Allocated(instances, peak)
    && Numbered(g, instances[ends.source].plugin, Output) && Numbered(g, instances[ends.sink].plugin, Input)
  }

  /** What the sink is meant to hear, however the plugins are ranked. */
  ghost predicate HeardRight<B>(g: Graph, sink: nat, play: Play<B>, heard: seq<B>) {
    forall rank :: Ranked(g, rank) && HasRank(rank, sink) ==>
      Fed(g, rank, sink) && Plays(g, sink, sink) && heard == Arrives(g, rank, sink, play, sink)
  }

  lemma {:induction false} ReadyParts(g: Graph, roles: seq<Role>, instances: seq<Instance>, peak: nat, ends: Ends)
    requires Ready(g, roles, instances, peak, ends)
    ensures ends.Ends? && ends.source < |instances| && ends.sink == |instances| - 1
    ensures Compiled(g, instances[ends.sink].plugin, instances)
    ensures FindInstance(instances, instances[ends.source].plugin) == ends.source
    ensures Forward(instances) && SafeUpTo(instances, peak, |instances|) && BuffersFit(instances, peak)
    ensures DistinctOutputs(instances[ends.source])
  {
    hide CanCreate, InstanceRight, Upstream, Numbered, Forward, SafeInput;
    FindsTheInstance(instances, ends.source);
  }

  lemma {:induction false} ReadyNumbers(g: Graph, roles: seq<Role>, instances: seq<Instance>, peak: nat, ends: Ends)
    requires Ready(g, roles, instances, peak, ends)
    ensures ends.Ends? && ends.source < |instances| && ends.sink < |instances|
    ensures NumberedOutputs(instances[ends.source]) && NumberedInputs(instances[ends.sink])
  {
    hide CanCreate, Compiled, AudioPorts, Forward, Allocated;
    InstancePlays(g, instances[ends.sink].plugin, instances, ends.source);
    InstancePlays(g, instances[ends.sink].plugin, instances, ends.sink);
  }

  /** The source buffers hold the channels under the names the run has for them. */
  lemma {:induction false} FilledIsLoaded<B>(instances: seq<Instance>, play: Play<B>, source: nat, bufs: seq<B>)
    requires BuffersFit(instances, |bufs|) && source < |instances| && FindInstance(instances, play.source) == source
    requires NumberedOutputs(instances[source])
    requires forall k :: 0 <= k < |instances[source].audioOut| ==>
               bufs[instances[source].audioOut[k].buf] == play.external(k)
    ensures Loaded(instances, SoundOf(instances, play), bufs)
  {
    var sound := SoundOf(instances, play);
    forall r: PortRef | r.instance == sound.source && IsRead(instances, r)
      ensures BufferOf(instances, r) < |bufs| && bufs[BufferOf(instances, r)] == sound.external(r.port)
    {
      assert PortRef(source, r.port) == r;
    }
  }

  ghost predicate Drained<B>(instances: seq<Instance>, i: nat, bufs: seq<B>, heard: seq<B>)
    requires i < |instances| && BuffersFit(instances, |bufs|)
  {
    |heard| == |instances[i].audioIn| && forall k :: 0 <= k < |heard| ==> heard[k] == bufs[instances[i].audioIn[k].buf]
  }

  /** What is taken from the sink buffers after the run is what the graph says. */
  lemma {:induction false} DrainedIsRight<B>(g: Graph, instances: seq<Instance>, source: nat, play: Play<B>,
                                             bufs: seq<B>, heard: seq<B>)
    requires instances != [] && WellFormed(g) && Compiled(g, instances[|instances| - 1].plugin, instances)
    requires Forward(instances) && SafeUpTo(instances, |bufs|, |instances|) && BuffersFit(instances, |bufs|)
    requires FindInstance(instances, play.source) == source && SourceKept(instances, source)
    requires Loaded(instances, SoundOf(instances, play), bufs)
    requires Drained(instances, |instances| - 1, RunUpTo(instances, SoundOf(instances, play), bufs, |instances|), heard)
    ensures HeardRight(g, instances[|instances| - 1].plugin, play, heard)
  {
    hide WellFormed, Compiled, Forward, SafeUpTo, BuffersFit, Loaded, SourceKept, RunUpTo, Fed;
    var last := |instances| - 1;
    var sink, sound := instances[last].plugin, SoundOf(instances, play);
    hide SoundOf;
    forall k | 0 <= k < |heard|
      ensures heard[k] == PrivateInputs(instances, sound, last)[k]
    {
      SinkHears(instances, sound, bufs, k);
    }
    assert heard == PrivateInputs(instances, sound, last);
    forall rank | Ranked(g, rank) && HasRank(rank, sink)
      ensures Fed(g, rank, sink) && Plays(g, sink, sink) && heard == Arrives(g, rank, sink, play, sink)
    {
      CompiledIsFed(g, rank, sink, instances);
      InputsArrive(g, rank, sink, instances, play, last);
    }
  }

  /**
   * One chunk: the channels go into the source buffers, the instances run, and the sink buffers are taken. Unless an
   * instance in front of the source spoils its data, the sink hears what the graph says.
   */
  method Apply<B>(g: Graph, roles: seq<Role>, p: Pipeline, ends: Ends, play: Play<B>, bufs: array<B>)
    returns (heard: seq<B>)
    requires WellFormed(g) && Ready(g, roles, p.instances, p.peakBuf, ends) && bufs.Length == p.peakBuf
    requires play.source == p.instances[ends.source].plugin
    modifies bufs
    ensures |heard| == |p.instances[ends.sink].audioIn|
    ensures SourceKept(p.instances, ends.source) ==> HeardRight(g, p.instances[ends.sink].plugin, play, heard)
  {
    hide WellFormed, Ready, SoundOf, SourceKept, HeardRight, SafeUpTo, Compiled, Forward, Loaded, RunUpTo;
    ReadyParts(g, roles, p.instances, p.peakBuf, ends);
    ReadyNumbers(g, roles, p.instances, p.peakBuf, ends);
    FillSource(p.instances[ends.source], play.external, bufs);
    ghost var filled := bufs[..];
    FilledIsLoaded(p.instances, play, ends.source, filled);
    var _ := RunPipeline(p.instances, SoundOf(p.instances, play), bufs);
    heard := DrainSink(p.instances[ends.sink], bufs);
    if SourceKept(p.instances, ends.source) {
      DrainedIsRight(g, p.instances, ends.source, play, filled, heard);
    }
  }

  // ----- from the graph to the ear -----

  /** Only the source starts a flow of audio: every other enabled plugin upstream of the sink has an audio input. */
  ghost predicate StartsAt(g: Graph, sink: nat, source: nat) {
    forall q: nat :: Plays(g, sink, q) && q != source ==> AudioPorts(g, q, Input) != []
  }

  lemma {:induction false} StartsKept(g: Graph, sink: nat, instances: seq<Instance>, source: nat)
    requires Compiled(g, sink, instances) && Forward(instances) && source < |instances|
    requires StartsAt(g, sink, instances[source].plugin)
    ensures SourceKept(instances, source)
  {
    hide Forward, Plays, AudioPorts, SourceKept;
    forall i | 0 <= i < |instances| && i != source
      ensures instances[i].audioIn != []
    {
      hide Compiled;
      InstancePlays(g, sink, instances, i);
      PluginsDiffer(g, sink, instances, i, source);
    }
    LoneSourceIsKept(instances, source);
  }

  lemma {:induction false} PluginsDiffer(g: Graph, sink: nat, instances: seq<Instance>, i: nat, j: nat)
    requires Compiled(g, sink, instances) && i < |instances| && j < |instances| && i != j
    ensures instances[i].plugin != instances[j].plugin
  {
    hide InstanceRight, Upstream;
  }

  /** The channels of the source plugin and of the sink plugin are their first ports. */
  ghost predicate ChannelsNumbered(g: Graph, roles: seq<Role>) {
    forall p: nat :: (Sole(g, roles, Source, p) ==> Numbered(g, p, Output))
      && (Sole(g, roles, Sink, p) ==> Numbered(g, p, Input))
  }

  lemma {:induction false} AllHaveModules(g: Graph, sink: nat, instances: seq<Instance>, modules: seq<Module>)
    requires Compiled(g, sink, instances) && |modules| == |g.plugins| && PluginsBelow(instances, |modules|)
    ensures (forall i :: 0 <= i < |instances| ==> modules[instances[i].plugin].Module?)
       <==> forall q: nat :: Plays(g, sink, q) ==> modules[q].Module?
  {
    hide InstanceRight, Upstream, PluginsDistinct;
    forall i | 0 <= i < |instances|
      ensures Plays(g, sink, instances[i].plugin)
    {
      hide Compiled;
      InstancePlays(g, sink, instances, i);
    }
    assert forall q: nat :: Plays(g, sink, q) ==> IsUpstream(g, sink, q);
  }

  lemma {:induction false} LoadedIsReady(g: Graph, roles: seq<Role>, instances: seq<Instance>, peak: nat, ends: Ends)
    requires ChannelsNumbered(g, roles) && CreatedRight(g, roles, instances, ends) && ends.Ends?
    requires Forward(instances) && Allocated(instances, peak)
    ensures Ready(g, roles, instances, peak, ends)
  {
    hide Sole, Upstream, Trouble, Compiled, Numbered, Forward, Allocated;
  }

  /**
   * Makes the pipeline of a graph and plays one chunk through it. When no other plugin than the source starts a flow,
   * the sink hears what the plugins and flows say; buffers and the order of the instances do not show.
   */
  method PlayGraph<B>(g: Graph, roles: seq<Role>, modules: seq<Module>, external: nat -> B,
                      module_: (nat, nat, seq<B>) -> B, blank: B)
    returns (ends: Ends, heard: Option<seq<B>>, ghost source: nat, ghost sink: nat)
    requires WellFormed(g) && OneWay(g, roles) && |roles| == |g.plugins| == |modules| && SingleConsumer(g)
             && ChannelsNumbered(g, roles)
    ensures ends.NoPipeline? <==> forall i: nat, k: nat :: !CanCreate(g, roles, i, k)
    ensures ends.Ends? ==> CanCreate(g, roles, source, sink)
    ensures heard.Some? <==> ends.Ends? && forall q: nat :: Plays(g, sink, q) ==> modules[q].Module?
    ensures heard.Some? && StartsAt(g, sink, source) ==>
              HeardRight(g, sink, Play(source, external, module_), heard.value)
  {
    hide WellFormed, OneWay, SingleConsumer, ChannelsNumbered, HeardRight, CanCreate, CreatedRight, Plays, StartsAt;
    hide Forward, OneConsumer, Allocated, SourceKept, ModulesLoaded, Ready, Compiled;
    var p, loaded;
    p, ends, loaded := CreateAndLoad(g, roles, modules);
    heard := None;
    source, sink := 0, 0;
    NotBoth(g, roles, p.instances, ends);
    if ends.NoPipeline? {
      return;
    }
    source, sink := p.instances[ends.source].plugin, p.instances[ends.sink].plugin;
    CompiledInRange(g, sink, p.instances);
    AllHaveModules(g, sink, p.instances, modules);
    if !loaded {
      return;
    }
    LoadedIsReady(g, roles, p.instances, p.peakBuf, ends);
    var bufs := new B[p.peakBuf](_ => blank);
    var played := Apply(g, roles, p, ends, Play(p.instances[ends.source].plugin, external, module_), bufs);
    heard := Some(played);
    if StartsAt(g, sink, source) {
      StartsKept(g, sink, p.instances, ends.source);
    }
  }
}
