/** The dynamic form of a DSP graph: instances in the order they run, with their audio connections. */
module DspTypes {

  /** An output port of an instance. */
  datatype PortRef = PortRef(instance: nat, port: nat)

  /** `original` is the index of the port in its plugin, `buf` the audio buffer the port uses. */
  datatype AudioIn = AudioIn(original: nat, peer: PortRef, buf: nat)

  datatype AudioOut = AudioOut(original: nat, buf: nat)

  datatype ControlIn = ControlIn(original: nat, peer: Peer)

  datatype Peer = Unconnected | Connected(ref: PortRef)

  datatype ControlOut = ControlOut(original: nat)

  /** `inplaceBroken` is the property of a module that must not write where it still reads. */
  datatype Instance = Instance(
    plugin: nat,
    audioIn: seq<AudioIn>,
    audioOut: seq<AudioOut>,
    controlIn: seq<ControlIn>,
    controlOut: seq<ControlOut>,
    inplaceBroken: bool,
    delay: int,
    totalDelay: int)

  predicate IsOutput(instances: seq<Instance>, r: PortRef) {
    r.instance < |instances| && r.port < |instances[r.instance].audioOut|
  }

  predicate IsInput(instances: seq<Instance>, i: nat, k: nat) {
    i < |instances| && k < |instances[i].audioIn|
  }

  /** Every input is fed by an output of an earlier instance. */
  ghost predicate Forward(instances: seq<Instance>) {
    forall i: nat, k: nat :: IsInput(instances, i, k) ==>
      IsOutput(instances, instances[i].audioIn[k].peer) && instances[i].audioIn[k].peer.instance < i
  }

  /** Every output feeds at most one input. */
  ghost predicate OneConsumer(instances: seq<Instance>) {
    forall i: nat, k: nat, j: nat, l: nat ::
      (IsInput(instances, i, k) && IsInput(instances, j, l)
       && instances[i].audioIn[k].peer == instances[j].audioIn[l].peer
       ==> i == j && k == l)
  }

  function BufferOf(instances: seq<Instance>, r: PortRef): nat
    requires IsOutput(instances, r)
  {
    instances[r.instance].audioOut[r.port].buf
  }

  ghost predicate PluginsDistinct(instances: seq<Instance>) {
    forall i, j :: 0 <= i < j < |instances| ==> instances[i].plugin != instances[j].plugin
  }

  /** The instance made for a plugin, or the number of instances when there is none. */
  function FindInstance(instances: seq<Instance>, plugin: nat): (i: nat)
    ensures i <= |instances| && (i < |instances| ==> instances[i].plugin == plugin)
    ensures forall j :: 0 <= j < i ==> instances[j].plugin != plugin
  {
    if instances == [] || instances[0].plugin == plugin then 0 else 1 + FindInstance(instances[1..], plugin)
  }

  /** The pipeline under construction. */
  class Pipeline {
    var instances: seq<Instance>
    var peakBuf: nat

    constructor ()
      ensures instances == [] && peakBuf == 0
    {
      instances, peakBuf := [], 0;
    }
  }
}
