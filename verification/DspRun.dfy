/** Running the pipeline in shared buffers computes what private buffers would. */
module DspRun {
  import opened DspTypes
  import opened DspBuffers

  /**
   * A run of the modules: `module_(i, k, ins)` is what instance `i` puts out on port `k`
   * when its inputs hold `ins`. The modules of the source and of the sink do nothing;
   * the output buffers of the source are filled with `external` before the run.
   */
  datatype Sound<!B> = Sound(source: nat, sink: nat, external: nat -> B, module_: (nat, nat, seq<B>) -> B)

  /** The sink is the last instance. */
  ghost predicate EndsAt<B>(instances: seq<Instance>, sound: Sound<B>) {
    sound.sink + 1 == |instances|
  }

  // ----- with a private buffer for every output -----

  ghost function Value<B>(instances: seq<Instance>, sound: Sound<B>, r: PortRef): B
    requires Forward(instances) && IsOutput(instances, r)
    decreases r.instance, 1
  {
    if r.instance == sound.source then sound.external(r.port)
    else sound.module_(r.instance, r.port, PrivateInputs(instances, sound, r.instance))
  }

  ghost function PrivateInputs<B>(instances: seq<Instance>, sound: Sound<B>, i: nat): (ins: seq<B>)
    requires Forward(instances) && i < |instances|
    ensures |ins| == |instances[i].audioIn|
    decreases i, 0
  {
    seq(|instances[i].audioIn|, k requires 0 <= k < |instances[i].audioIn| =>
      assert IsInput(instances, i, k);
      Value(instances, sound, instances[i].audioIn[k].peer))
  }

  // ----- with shared buffers -----

  predicate BuffersFit(instances: seq<Instance>, size: nat) {
    && (forall i, k :: 0 <= i < |instances| && 0 <= k < |instances[i].audioIn| ==> instances[i].audioIn[k].buf < size)
    && (forall i, k :: 0 <= i < |instances| && 0 <= k < |instances[i].audioOut| ==> instances[i].audioOut[k].buf < size)
  }

  function ReadInputs<B>(instances: seq<Instance>, i: nat, bufs: seq<B>): seq<B>
    requires BuffersFit(instances, |bufs|) && i < |instances|
  {
    seq(|instances[i].audioIn|, k requires 0 <= k < |instances[i].audioIn| => bufs[instances[i].audioIn[k].buf])
  }

  /** Writes the first `n` outputs, all computed from inputs read beforehand. */
  function WriteOutputs<B>(instances: seq<Instance>, sound: Sound<B>, i: nat, ins: seq<B>, bufs: seq<B>,
                           n: nat): (r: seq<B>)
    requires BuffersFit(instances, |bufs|) && i < |instances| && n <= |instances[i].audioOut|
    ensures |r| == |bufs|
  {
    if n == 0 then bufs
    else
      var rest := WriteOutputs(instances, sound, i, ins, bufs, n - 1);
      rest[instances[i].audioOut[n - 1].buf := sound.module_(i, n - 1, ins)]
  }

  /** Writes the first `n` outputs, reading the inputs anew for each of them. */
  function StepOutputs<B>(instances: seq<Instance>, sound: Sound<B>, i: nat, bufs: seq<B>, n: nat): (r: seq<B>)
    requires BuffersFit(instances, |bufs|) && i < |instances| && n <= |instances[i].audioOut|
    ensures |r| == |bufs|
  {
    if n == 0 then bufs
    else
      var before := StepOutputs(instances, sound, i, bufs, n - 1);
      before[instances[i].audioOut[n - 1].buf := sound.module_(i, n - 1, ReadInputs(instances, i, before))]
  }

  function RunInstance<B>(instances: seq<Instance>, sound: Sound<B>, i: nat, bufs: seq<B>): (r: seq<B>)
    requires BuffersFit(instances, |bufs|) && i < |instances|
    ensures |r| == |bufs|
  {
    if i == sound.source || i == sound.sink then bufs
    else if instances[i].inplaceBroken then StepOutputs(instances, sound, i, bufs, |instances[i].audioOut|)
    else WriteOutputs(instances, sound, i, ReadInputs(instances, i, bufs), bufs, |instances[i].audioOut|)
  }

  /** The buffers after the first `n` instances have run. */
  function RunUpTo<B>(instances: seq<Instance>, sound: Sound<B>, bufs: seq<B>, n: nat): (r: seq<B>)
    requires BuffersFit(instances, |bufs|) && n <= |instances|
    ensures |r| == |bufs|
  {
    if n == 0 then bufs else RunInstance(instances, sound, n - 1, RunUpTo(instances, sound, bufs, n - 1))
  }

  /** The module of instance `i` at work: the source and the sink do nothing, the others write port by port. */
  method RunModule<B>(instances: seq<Instance>, sound: Sound<B>, i: nat, bufs: array<B>)
    requires BuffersFit(instances, bufs.Length) && i < |instances|
    modifies bufs
    ensures bufs[..] == RunInstance(instances, sound, i, old(bufs[..]))
  {
    if i == sound.source || i == sound.sink {
      return;
    }

    ghost var before := bufs[..];
    var ins := ReadInputs(instances, i, bufs[..]);
    ghost var first := ins;
    for k := 0 to |instances[i].audioOut|
      invariant ins == first || instances[i].inplaceBroken
      invariant bufs[..] == if instances[i].inplaceBroken then StepOutputs(instances, sound, i, before, k)
                            else WriteOutputs(instances, sound, i, first, before, k)
    {
      ghost var now := bufs[..];
      if instances[i].inplaceBroken {
        ins := ReadInputs(instances, i, bufs[..]);
      }
      bufs[instances[i].audioOut[k].buf] := sound.module_(i, k, ins);
      assert bufs[..] == now[instances[i].audioOut[k].buf := sound.module_(i, k, ins)];
    }
  }

  method RunPipeline<B>(instances: seq<Instance>, sound: Sound<B>, bufs: array<B>) returns (seen: seq<seq<B>>)
    requires BuffersFit(instances, bufs.Length)
    modifies bufs
    ensures bufs[..] == RunUpTo(instances, sound, old(bufs[..]), |instances|)
    ensures |seen| == |instances|
    ensures forall i :: 0 <= i < |instances| ==>
              seen[i] == ReadInputs(instances, i, RunUpTo(instances, sound, old(bufs[..]), i))
  {
    hide BuffersFit, ReadInputs, RunInstance;
    seen := [];
    for i := 0 to |instances|
      invariant bufs[..] == RunUpTo(instances, sound, old(bufs[..]), i)
      invariant |seen| == i
      invariant forall j :: 0 <= j < i ==>
                  seen[j] == ReadInputs(instances, j, RunUpTo(instances, sound, old(bufs[..]), j))
    {
      seen := seen + [ReadInputs(instances, i, bufs[..])];
      RunModule(instances, sound, i, bufs);
    }
  }

  // ----- both agree -----

  ghost predicate IsRead(instances: seq<Instance>, r: PortRef) {
    IsOutput(instances, r) && exists i: nat :: ReadAt(instances, i, r)
  }

  /** No instance in front of the source writes the buffer of a source port that somebody reads. */
  ghost predicate SourceKept(instances: seq<Instance>, source: nat) {
    forall j: nat, r: PortRef :: j < source && j < |instances| && r.instance == source && IsRead(instances, r) ==>
      !WritesBuffer(instances[j], BufferOf(instances, r))
  }

  /** The external data is in the source buffers that somebody reads. */
  ghost predicate Loaded<B>(instances: seq<Instance>, sound: Sound<B>, bufs: seq<B>) {
    forall r: PortRef :: r.instance == sound.source && IsRead(instances, r) ==>
      BufferOf(instances, r) < |bufs| && bufs[BufferOf(instances, r)] == sound.external(r.port)
  }

  ghost predicate Holds<B>(instances: seq<Instance>, sound: Sound<B>, bufs: seq<B>, r: PortRef)
    requires Forward(instances) && IsOutput(instances, r)
  {
    BufferOf(instances, r) < |bufs| && bufs[BufferOf(instances, r)] == Value(instances, sound, r)
  }

  /**
   * After `n` instances every port that is read and whose buffer
   * has been left alone holds the value a private buffer would.
   */
  ghost predicate Faithful<B>(instances: seq<Instance>, sound: Sound<B>, bufs: seq<B>, n: nat)
    requires Forward(instances)
  {
    && (forall r :: IsRead(instances, r) && r.instance < n && Untouched(instances, n, r) ==>
          Holds(instances, sound, bufs, r))
    && (n <= sound.source ==> Loaded(instances, sound, bufs))
  }

  lemma {:induction false} SafeFits(instances: seq<Instance>, peak: nat)
    requires Forward(instances) && SafeUpTo(instances, peak, |instances|)
    ensures BuffersFit(instances, peak)
  {
    forall i, k | 0 <= i < |instances| && 0 <= k < |instances[i].audioIn|
      ensures instances[i].audioIn[k].buf < peak
    {
      assert IsInput(instances, i, k) && SafeInput(instances, i, k);
    }
  }

  lemma {:induction false} InputsFaithful<B>(instances: seq<Instance>, sound: Sound<B>, bufs: seq<B>, i: nat)
    requires Forward(instances) && SafeUpTo(instances, |bufs|, |instances|) && BuffersFit(instances, |bufs|)
    requires i < |instances| && Faithful(instances, sound, bufs, i)
    ensures ReadInputs(instances, i, bufs) == PrivateInputs(instances, sound, i)
  {
    forall k | 0 <= k < |instances[i].audioIn|
      ensures bufs[instances[i].audioIn[k].buf] == Value(instances, sound, instances[i].audioIn[k].peer)
    {
      assert IsInput(instances, i, k) && SafeInput(instances, i, k);
      assert ReadAt(instances, i, instances[i].audioIn[k].peer);
      assert Holds(instances, sound, bufs, instances[i].audioIn[k].peer);
    }
  }

  /** Only the buffers of the outputs change, and with distinct buffers each ends with its own output. */
  lemma {:induction false} WriteOutputsAt<B>(instances: seq<Instance>, sound: Sound<B>, i: nat, ins: seq<B>,
                                             bufs: seq<B>, n: nat, b: nat)
    requires BuffersFit(instances, |bufs|) && i < |instances| && n <= |instances[i].audioOut| && b < |bufs|
    requires DistinctOutputs(instances[i])
    ensures var r := WriteOutputs(instances, sound, i, ins, bufs, n);
            && (!WritesBuffer(instances[i], b) ==> r[b] == bufs[b])
            && (forall k :: 0 <= k < n && instances[i].audioOut[k].buf == b ==> r[b] == sound.module_(i, k, ins))
  {
    if n > 0 {
      WriteOutputsAt(instances, sound, i, ins, bufs, n - 1, b);
    }
  }

  /** A module that may not work in place sees the same inputs all along. */
  lemma {:induction false} StepsAreWrites<B>(instances: seq<Instance>, sound: Sound<B>, i: nat, bufs: seq<B>, n: nat)
    requires Forward(instances) && SafeUpTo(instances, |bufs|, |instances|) && BuffersFit(instances, |bufs|)
    requires i < |instances| && instances[i].inplaceBroken && n <= |instances[i].audioOut|
    ensures StepOutputs(instances, sound, i, bufs, n)
         == WriteOutputs(instances, sound, i, ReadInputs(instances, i, bufs), bufs, n)
  {
    if n > 0 {
      StepsAreWrites(instances, sound, i, bufs, n - 1);
      var before := StepOutputs(instances, sound, i, bufs, n - 1);
      var ins := ReadInputs(instances, i, bufs);
      forall k | 0 <= k < |instances[i].audioIn|
        ensures before[instances[i].audioIn[k].buf] == bufs[instances[i].audioIn[k].buf]
      {
        assert IsInput(instances, i, k) && SafeInput(instances, i, k);
        WriteOutputsAt(instances, sound, i, ins, bufs, n - 1, instances[i].audioIn[k].buf);
      }
      assert ReadInputs(instances, i, before) == ins;
    }
  }

  lemma {:induction false} RunInstanceAt<B>(instances: seq<Instance>, sound: Sound<B>, i: nat, bufs: seq<B>, b: nat)
    requires Forward(instances) && SafeUpTo(instances, |bufs|, |instances|) && BuffersFit(instances, |bufs|)
    requires i < |instances| && b < |bufs|
    ensures var r := RunInstance(instances, sound, i, bufs);
            && (!WritesBuffer(instances[i], b) || i == sound.source || i == sound.sink ==> r[b] == bufs[b])
            && (i != sound.source && i != sound.sink ==>
                  forall k :: 0 <= k < |instances[i].audioOut| && instances[i].audioOut[k].buf == b ==>
                  r[b] == sound.module_(i, k, ReadInputs(instances, i, bufs)))
  {
    assert DistinctOutputs(instances[i]);
    if instances[i].inplaceBroken {
      StepsAreWrites(instances, sound, i, bufs, |instances[i].audioOut|);
    }
    WriteOutputsAt(instances, sound, i, ReadInputs(instances, i, bufs), bufs, |instances[i].audioOut|, b);
  }

  lemma {:induction false} RunKeepsFaithful<B>(instances: seq<Instance>, sound: Sound<B>, bufs: seq<B>, i: nat)
    requires Forward(instances) && SafeUpTo(instances, |bufs|, |instances|) && BuffersFit(instances, |bufs|)
    requires i < |instances| && Faithful(instances, sound, bufs, i) && SourceKept(instances, sound.source)
             && EndsAt(instances, sound)
    ensures Faithful(instances, sound, RunInstance(instances, sound, i, bufs), i + 1)
  {
    var after := RunInstance(instances, sound, i, bufs);
    InputsFaithful(instances, sound, bufs, i);
    forall r | IsRead(instances, r) && r.instance < i + 1 && Untouched(instances, i + 1, r)
      ensures Holds(instances, sound, after, r)
    {
      var b := BufferOf(instances, r);
      assert instances[r.instance].audioOut[r.port].buf == b;
      RunInstanceAt(instances, sound, i, bufs, b);
      if r.instance < i {
        assert Untouched(instances, i, r);
        assert Holds(instances, sound, bufs, r);
      }
    }
    if i + 1 <= sound.source {
      forall r: PortRef | r.instance == sound.source && IsRead(instances, r)
        ensures after[BufferOf(instances, r)] == sound.external(r.port)
      {
        RunInstanceAt(instances, sound, i, bufs, BufferOf(instances, r));
      }
    }
  }

  lemma {:induction false} RunFaithful<B>(instances: seq<Instance>, sound: Sound<B>, bufs: seq<B>, n: nat)
    requires Forward(instances) && SafeUpTo(instances, |bufs|, |instances|) && BuffersFit(instances, |bufs|)
    requires n <= |instances| && Loaded(instances, sound, bufs) && SourceKept(instances, sound.source)
             && EndsAt(instances, sound)
    ensures Faithful(instances, sound, RunUpTo(instances, sound, bufs, n), n)
  {
    hide Forward, SafeUpTo, SourceKept, EndsAt, RunInstance;
    if n > 0 {
      RunFaithful(instances, sound, bufs, n - 1);
      RunKeepsFaithful(instances, sound, RunUpTo(instances, sound, bufs, n - 1), n - 1);
    }
  }

  /** With shared buffers every instance reads exactly what it would read with a private buffer for every output. */
  lemma {:induction false} SharedRunIsPrivateRun<B>(instances: seq<Instance>, sound: Sound<B>, bufs: seq<B>, i: nat)
    requires Forward(instances) && SafeUpTo(instances, |bufs|, |instances|) && BuffersFit(instances, |bufs|)
    requires i < |instances| && Loaded(instances, sound, bufs) && SourceKept(instances, sound.source)
             && EndsAt(instances, sound)
    ensures ReadInputs(instances, i, RunUpTo(instances, sound, bufs, i)) == PrivateInputs(instances, sound, i)
  {
    RunFaithful(instances, sound, bufs, i);
    InputsFaithful(instances, sound, RunUpTo(instances, sound, bufs, i), i);
  }

  /** What the caller takes from the buffers of the sink after the run. */
  lemma {:induction false} SinkHears<B>(instances: seq<Instance>, sound: Sound<B>, bufs: seq<B>, k: nat)
    requires Forward(instances) && SafeUpTo(instances, |bufs|, |instances|) && BuffersFit(instances, |bufs|)
    requires Loaded(instances, sound, bufs) && SourceKept(instances, sound.source) && EndsAt(instances, sound)
    requires IsInput(instances, sound.sink, k)
    ensures var sink := sound.sink;
            RunUpTo(instances, sound, bufs, |instances|)[instances[sink].audioIn[k].buf] ==
              PrivateInputs(instances, sound, sink)[k]
  {
    SharedRunIsPrivateRun(instances, sound, bufs, sound.sink);
    assert RunUpTo(instances, sound, bufs, |instances|) == RunUpTo(instances, sound, bufs, sound.sink);
  }

  // ----- the condition is needed -----

  ghost function Silence(source: nat, sink: nat): Sound<bool> {
    Sound(source, sink, k => true, (i, k, ins) => false)
  }

  lemma {:induction false} SilenceStays(instances: seq<Instance>, source: nat, bufs: seq<bool>, i: nat, b: nat)
    requires Forward(instances) && SafeUpTo(instances, |bufs|, |instances|) && BuffersFit(instances, |bufs|)
    requires i < |instances| && b < |bufs|
    requires !bufs[b] || (i != source && i < |instances| - 1 && WritesBuffer(instances[i], b))
    ensures !RunInstance(instances, Silence(source, |instances| - 1), i, bufs)[b]
  {
    RunInstanceAt(instances, Silence(source, |instances| - 1), i, bufs, b);
    if i != source && i < |instances| - 1 && WritesBuffer(instances[i], b) {
      var k :| 0 <= k < |instances[i].audioOut| && instances[i].audioOut[k].buf == b;
    }
  }

  lemma {:induction false} SilenceUpTo(instances: seq<Instance>, source: nat, bufs: seq<bool>, j: nat, n: nat, b: nat)
    requires Forward(instances) && SafeUpTo(instances, |bufs|, |instances|) && BuffersFit(instances, |bufs|)
    requires j < n <= |instances| && j < source < |instances| && b < |bufs| && WritesBuffer(instances[j], b)
    ensures !RunUpTo(instances, Silence(source, |instances| - 1), bufs, n)[b]
  {
    if n > j + 1 {
      SilenceUpTo(instances, source, bufs, j, n - 1, b);
    }
    SilenceStays(instances, source, RunUpTo(instances, Silence(source, |instances| - 1), bufs, n - 1), n - 1, b);
  }

  /**
   * An instance in front of the source that writes a source
   * buffer makes the reader of that port miss the external data.
   */
  lemma {:induction false} EarlyWriterSpoilsSource(instances: seq<Instance>, source: nat, bufs: seq<bool>, j: nat,
                                                   i: nat, k: nat)
    requires Forward(instances) && SafeUpTo(instances, |bufs|, |instances|) && BuffersFit(instances, |bufs|)
    requires IsInput(instances, i, k) && instances[i].audioIn[k].peer.instance == source
    requires j < source && WritesBuffer(instances[j], BufferOf(instances, instances[i].audioIn[k].peer))
    requires Loaded(instances, Silence(source, |instances| - 1), bufs)
    ensures var silence := Silence(source, |instances| - 1);
            ReadInputs(instances, i, RunUpTo(instances, silence, bufs, i))[k] != PrivateInputs(instances, silence, i)[k]
  {
    assert SafeInput(instances, i, k);
    SilenceUpTo(instances, source, bufs, j, i, instances[i].audioIn[k].buf);
  }

  /** Instance `i` reads from the shared buffers what it would read from private ones. */
  ghost predicate ReadsAsPrivate<B>(instances: seq<Instance>, sound: Sound<B>, bufs: seq<B>, i: nat)
    requires Forward(instances) && BuffersFit(instances, |bufs|) && i < |instances|
  {
    ReadInputs(instances, i, RunUpTo(instances, sound, bufs, i)) == PrivateInputs(instances, sound, i)
  }

  /** So does every instance in every run, whatever the modules compute and the source plays. */
  ghost predicate RunsAsPrivate(instances: seq<Instance>, source: nat, size: nat)
    requires Forward(instances) && BuffersFit(instances, size)
  {
    forall sound: Sound<bool>, bufs: seq<bool>, i: nat |
      sound.source == source && EndsAt(instances, sound) && |bufs| == size && i < |instances|
        && Loaded(instances, sound, bufs) ::
        ReadsAsPrivate(instances, sound, bufs, i)
  }

  lemma {:induction false} KeptRunsAsPrivate(instances: seq<Instance>, source: nat, size: nat)
    requires Forward(instances) && SafeUpTo(instances, size, |instances|) && BuffersFit(instances, size)
    requires SourceKept(instances, source)
    ensures RunsAsPrivate(instances, source, size)
  {
    hide Forward, BuffersFit, SafeUpTo, SourceKept, Loaded, ReadInputs, RunUpTo, EndsAt;
    forall sound: Sound<bool>, bufs: seq<bool>, i: nat |
      sound.source == source && EndsAt(instances, sound) && |bufs| == size && i < |instances|
        && Loaded(instances, sound, bufs)
      ensures ReadsAsPrivate(instances, sound, bufs, i)
    {
      SharedRunIsPrivateRun(instances, sound, bufs, i);
    }
  }

  lemma {:induction false} SilenceIsLoaded(instances: seq<Instance>, source: nat, bufs: seq<bool>)
    requires instances != [] && BuffersFit(instances, |bufs|) && forall b :: 0 <= b < |bufs| ==> bufs[b]
    ensures Loaded(instances, Silence(source, |instances| - 1), bufs)
            && EndsAt(instances, Silence(source, |instances| - 1))
  {
  }

  lemma {:induction false} SpoiledRun(instances: seq<Instance>, source: nat, size: nat, j: nat, i: nat, k: nat)
    requires Forward(instances) && SafeUpTo(instances, size, |instances|) && BuffersFit(instances, size)
    requires IsInput(instances, i, k) && instances[i].audioIn[k].peer.instance == source
    requires j < source && WritesBuffer(instances[j], BufferOf(instances, instances[i].audioIn[k].peer))
    ensures !RunsAsPrivate(instances, source, size)
  {
    hide Forward, BuffersFit, SafeUpTo, Loaded, ReadInputs, RunUpTo, EndsAt;
    var bufs := seq(size, _ => true);
    SilenceIsLoaded(instances, source, bufs);
    EarlyWriterSpoilsSource(instances, source, bufs, j, i, k);
    assert !ReadsAsPrivate(instances, Silence(source, |instances| - 1), bufs, i);
  }

  /**
   * Sharing buffers goes unnoticed if and only if nothing in front
   * of the source writes the buffer of a source port that is read.
   */
  lemma {:induction false} SharedIsPrivateIff(instances: seq<Instance>, source: nat, size: nat)
    requires Forward(instances) && SafeUpTo(instances, size, |instances|) && BuffersFit(instances, size)
    ensures RunsAsPrivate(instances, source, size) <==> SourceKept(instances, source)
  {
    hide Forward, BuffersFit, SafeUpTo, RunsAsPrivate, WritesBuffer;
    if SourceKept(instances, source) {
      KeptRunsAsPrivate(instances, source, size);
    } else {
      var j: nat, r: PortRef :| j < source && j < |instances| && r.instance == source && IsRead(instances, r)
                                && WritesBuffer(instances[j], BufferOf(instances, r));
      var i: nat :| ReadAt(instances, i, r);
      var k: nat :| IsInput(instances, i, k) && instances[i].audioIn[k].peer == r;
      SpoiledRun(instances, source, size, j, i, k);
    }
  }
}
