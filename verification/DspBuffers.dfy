/** Assigning audio buffers to ports, reusing a buffer as soon as its only reader has run. */
module DspBuffers {
  import opened DspTypes

  // ----- what is live between two instances -----

  ghost predicate ConsumedBefore(instances: seq<Instance>, i: nat, r: PortRef) {
    exists j: nat, l: nat :: IsInput(instances, j, l) && j < i && instances[j].audioIn[l].peer == r
  }

  /** `r` has been written by one of the first `i` instances and none of them has read it. */
  ghost predicate Live(instances: seq<Instance>, i: nat, r: PortRef) {
    IsOutput(instances, r) && r.instance < i && !ConsumedBefore(instances, i, r)
  }

  function NeedAfter(instances: seq<Instance>, i: nat): int
    requires i <= |instances|
  {
    if i == 0 then 0 else NeedAfter(instances, i - 1) + |instances[i - 1].audioOut| - |instances[i - 1].audioIn|
  }

  /** The most buffers in use at any time while instance `i` runs. */
  function NeedDuring(instances: seq<Instance>, i: nat): int
    requires i < |instances|
  {
    if instances[i].inplaceBroken then NeedAfter(instances, i) + |instances[i].audioOut|
    else NeedAfter(instances, i + 1)
  }

  /** The counting pass. */
  method CountBuffers(instances: seq<Instance>) returns (peak: nat)
    ensures forall i :: 0 <= i < |instances| ==> NeedDuring(instances, i) <= peak
    ensures peak == 0 || exists i :: 0 <= i < |instances| && NeedDuring(instances, i) == peak
  {
    var need := 0;
    peak := 0;
    for i := 0 to |instances|
      invariant need == NeedAfter(instances, i)
      invariant forall j :: 0 <= j < i ==> NeedDuring(instances, j) <= peak
      invariant peak == 0 || exists j :: 0 <= j < i && NeedDuring(instances, j) == peak
    {
      var ins, outs := |instances[i].audioIn|, |instances[i].audioOut|;
      assert NeedAfter(instances, i + 1) == need + outs - ins;
      ghost var during := NeedDuring(instances, i);
      if instances[i].inplaceBroken {
        need := need + outs;
        peak := if need > peak then need else peak;
        need := need - ins;
      } else {
        need := need + outs - ins;
        peak := if need > peak then need else peak;
      }
      assert peak == 0 || peak == during || exists j :: 0 <= j < i && NeedDuring(instances, j) == peak;
    }
  }

  // ----- the busy map -----

  function BusyCount(busy: seq<bool>): nat {
    if busy == [] then 0 else BusyCount(busy[..|busy| - 1]) + if busy[|busy| - 1] then 1 else 0
  }

  lemma {:induction false} BusyUpdate(busy: seq<bool>, b: nat, v: bool)
    requires b < |busy|
    ensures BusyCount(busy[b := v]) == BusyCount(busy) + (if v then 1 else 0) - (if busy[b] then 1 else 0)
  {
    var init := busy[..|busy| - 1];
    if b == |busy| - 1 {
      assert busy[b := v][..|busy| - 1] == init;
    } else {
      assert busy[b := v][..|busy| - 1] == init[b := v];
      BusyUpdate(init, b, v);
    }
  }

  lemma {:induction false} AllBusyCount(busy: seq<bool>)
    requires forall b :: 0 <= b < |busy| ==> busy[b]
    ensures BusyCount(busy) == |busy|
  {
    if busy != [] {
      AllBusyCount(busy[..|busy| - 1]);
    }
  }

  lemma {:induction false} NoneBusyCount(busy: seq<bool>)
    requires forall b :: 0 <= b < |busy| ==> !busy[b]
    ensures BusyCount(busy) == 0
  {
    if busy != [] {
      NoneBusyCount(busy[..|busy| - 1]);
    }
  }

  ghost predicate Distinct(s: seq<nat>) {
    forall i, j :: 0 <= i < j < |s| ==> s[i] != s[j]
  }

  /** `bufs` have been taken, all of them below `k`, and nothing below `k` is free. */
  ghost predicate TakenBelow(was: seq<bool>, now: seq<bool>, bufs: seq<nat>, k: nat) {
    && k <= |was| == |now| && Distinct(bufs)
    && (forall i :: 0 <= i < |bufs| ==> bufs[i] < k && !was[bufs[i]])
    && (forall b :: 0 <= b < |was| ==> (now[b] <==> was[b] || b in bufs))
    && BusyCount(now) == BusyCount(was) + |bufs|
    && forall b :: 0 <= b < k ==> now[b]
  }

  lemma {:induction false} FreeAbove(was: seq<bool>, now: seq<bool>, bufs: seq<nat>, k: nat)
    requires TakenBelow(was, now, bufs, k) && BusyCount(was) + |bufs| < |was|
    ensures k < |was|
  {
    if k == |was| {
      AllBusyCount(now);
    }
  }

  lemma {:induction false} NextBusy(was: seq<bool>, now: seq<bool>, bufs: seq<nat>, k: nat)
    requires TakenBelow(was, now, bufs, k) && k < |now| && now[k]
    ensures TakenBelow(was, now, bufs, k + 1)
  {
  }

  lemma {:induction false} NextTaken(was: seq<bool>, now: seq<bool>, bufs: seq<nat>, k: nat)
    requires TakenBelow(was, now, bufs, k) && k < |now| && !now[k]
    ensures TakenBelow(was, now[k := true], bufs + [k], k + 1)
  {
    BusyUpdate(now, k, true);
  }

  /** Takes the lowest free buffer for each port; with enough free buffers the search stays inside the map. */
  method UseBuffers(busy: array<bool>, n: nat) returns (bufs: seq<nat>)
    requires BusyCount(busy[..]) + n <= busy.Length
    modifies busy
    ensures |bufs| == n && Distinct(bufs)
    ensures forall i :: 0 <= i < n ==> bufs[i] < busy.Length && !old(busy[..])[bufs[i]]
    ensures forall b :: 0 <= b < busy.Length ==> (busy[b] <==> old(busy[..])[b] || b in bufs)
    ensures BusyCount(busy[..]) == old(BusyCount(busy[..])) + n
    // The lowest free ones.
    ensures forall b, i :: 0 <= i < n && 0 <= b < bufs[i] ==> busy[b]
  {
    bufs := [];
    var k := 0;
    ghost var was := busy[..];
    for i := 0 to n
      invariant |bufs| == i && TakenBelow(was, busy[..], bufs, k)
    {
      FreeAbove(was, busy[..], bufs, k);
      hide TakenBelow;
      while busy[k]
        modifies {}
        invariant k < busy.Length && TakenBelow(was, busy[..], bufs, k)
        decreases busy.Length - k
      {
        NextBusy(was, busy[..], bufs, k);
        k := k + 1;
        FreeAbove(was, busy[..], bufs, k);
      }
      NextTaken(was, busy[..], bufs, k);
      bufs := bufs + [k];
      ghost var before := busy[..];
      busy[k] := true;
      assert busy[..] == before[k := true];
      k := k + 1;
    }
  }

  method UnuseBuffers(busy: array<bool>, bufs: seq<nat>)
    requires Distinct(bufs) && forall i :: 0 <= i < |bufs| ==> bufs[i] < busy.Length && busy[bufs[i]]
    modifies busy
    ensures forall b :: 0 <= b < busy.Length ==> (busy[b] <==> old(busy[..])[b] && b !in bufs)
    ensures BusyCount(busy[..]) == old(BusyCount(busy[..])) - |bufs|
  {
    for i := 0 to |bufs|
      invariant forall b :: 0 <= b < busy.Length ==> (busy[b] <==> old(busy[..])[b] && b !in bufs[..i])
      invariant BusyCount(busy[..]) == old(BusyCount(busy[..])) - i
    {
      BusyUpdate(busy[..], bufs[i], false);
      ghost var before := busy[..];
      busy[bufs[i]] := false;
      assert busy[..] == before[bufs[i] := false];
      assert bufs[..i + 1] == bufs[..i] + [bufs[i]];
    }
    assert bufs[..|bufs|] == bufs;
  }

  // ----- what the assignment keeps -----

  /** The same graph; only buffer indices may differ. */
  ghost predicate SameGraph(a: seq<Instance>, b: seq<Instance>) {
    && |a| == |b|
    && forall i :: 0 <= i < |a| ==> SameInstance(a[i], b[i])
  }

  ghost predicate SameInstance(x: Instance, y: Instance) {
    && y == x.(audioIn := y.audioIn, audioOut := y.audioOut)
    && |x.audioIn| == |y.audioIn| && |x.audioOut| == |y.audioOut|
    && (forall k :: 0 <= k < |x.audioIn| ==> y.audioIn[k] == x.audioIn[k].(buf := y.audioIn[k].buf))
    && (forall k :: 0 <= k < |x.audioOut| ==> y.audioOut[k] == x.audioOut[k].(buf := y.audioOut[k].buf))
  }

  ghost predicate WritesBuffer(inst: Instance, b: nat) {
    exists k :: 0 <= k < |inst.audioOut| && inst.audioOut[k].buf == b
  }

  /** No instance between the writer of `r` and instance `i` writes the buffer of `r`. */
  ghost predicate Untouched(instances: seq<Instance>, i: nat, r: PortRef)
    requires IsOutput(instances, r)
  {
    forall m :: r.instance < m < i && m < |instances| ==> !WritesBuffer(instances[m], BufferOf(instances, r))
  }

  ghost predicate DistinctOutputs(inst: Instance) {
    forall k, l :: 0 <= k < l < |inst.audioOut| ==> inst.audioOut[k].buf != inst.audioOut[l].buf
  }

  ghost predicate SafeInput(instances: seq<Instance>, i: nat, k: nat)
    requires IsInput(instances, i, k) && IsOutput(instances, instances[i].audioIn[k].peer)
  {
    var r := instances[i].audioIn[k].peer;
    && instances[i].audioIn[k].buf == BufferOf(instances, r)
    && Untouched(instances, i, r)
    && (instances[i].inplaceBroken ==> !WritesBuffer(instances[i], BufferOf(instances, r)))
  }

  /**
   * The first `n` instances use buffers below `peak`; between the writer of a buffer and its reader nobody else writes
   * it, and a reader that cannot work in place does not write it either.
   */
  ghost predicate SafeUpTo(instances: seq<Instance>, peak: nat, n: nat)
    requires Forward(instances) && n <= |instances|
  {
    && (forall i, k :: 0 <= i < n && 0 <= k < |instances[i].audioOut| ==> instances[i].audioOut[k].buf < peak)
    && (forall i :: 0 <= i < n ==> DistinctOutputs(instances[i]))
    && (forall i: nat, k: nat :: i < n && IsInput(instances, i, k) ==> SafeInput(instances, i, k))
  }

  /** The busy map is exactly the buffers of live ports, each used once and left alone since. */
  ghost predicate BusyIsLive(instances: seq<Instance>, busy: seq<bool>, i: nat) {
    && (forall r :: Live(instances, i, r) ==>
          BufferOf(instances, r) < |busy| && busy[BufferOf(instances, r)] && Untouched(instances, i, r))
    && (forall r, s ::
          Live(instances, i, r) && Live(instances, i, s) && BufferOf(instances, r) == BufferOf(instances, s) ==> r == s)
    && (forall b :: 0 <= b < |busy| && busy[b] ==> exists r :: Live(instances, i, r) && BufferOf(instances, r) == b)
  }

  /** Whoever reads at instance `i` reads a port that is live just before it. */
  lemma {:induction false} PeerIsLive(instances: seq<Instance>, i: nat, k: nat)
    requires Forward(instances) && OneConsumer(instances) && IsInput(instances, i, k)
    ensures Live(instances, i, instances[i].audioIn[k].peer)
  {
  }

  ghost predicate ReadAt(instances: seq<Instance>, i: nat, r: PortRef) {
    exists k: nat :: IsInput(instances, i, k) && instances[i].audioIn[k].peer == r
  }

  lemma {:induction false} LiveStep(instances: seq<Instance>, i: nat, r: PortRef)
    requires Forward(instances) && i < |instances|
    ensures Live(instances, i + 1, r)
       <==> (Live(instances, i, r) && !ReadAt(instances, i, r)) || (IsOutput(instances, r) && r.instance == i)
  {
    assert ConsumedBefore(instances, i + 1, r) <==> ConsumedBefore(instances, i, r) || ReadAt(instances, i, r) by {
      if ConsumedBefore(instances, i + 1, r) {
        var j: nat, l: nat :| IsInput(instances, j, l) && j < i + 1 && instances[j].audioIn[l].peer == r;
        assert j < i || ReadAt(instances, i, r);
      }
    }
  }

  lemma {:induction false} SameGraphSamePorts(a: seq<Instance>, b: seq<Instance>)
    requires SameGraph(a, b)
    ensures forall i: nat, k: nat :: IsInput(a, i, k) <==> IsInput(b, i, k)
    ensures forall i: nat, k: nat :: IsInput(a, i, k) ==> a[i].audioIn[k].peer == b[i].audioIn[k].peer
    ensures forall r :: IsOutput(a, r) <==> IsOutput(b, r)
  {
    forall i: nat, k: nat
      ensures IsInput(a, i, k) <==> IsInput(b, i, k)
      ensures IsInput(a, i, k) ==> a[i].audioIn[k].peer == b[i].audioIn[k].peer
    {
      if i < |a| {
        assert SameInstance(a[i], b[i]);
      }
    }
    forall r
      ensures IsOutput(a, r) <==> IsOutput(b, r)
    {
      if r.instance < |a| {
        assert SameInstance(a[r.instance], b[r.instance]);
      }
    }
  }

  lemma {:induction false} SameGraphLive(a: seq<Instance>, b: seq<Instance>, i: nat, r: PortRef)
    requires SameGraph(a, b)
    ensures Live(a, i, r) <==> Live(b, i, r)
  {
    SameGraphSamePorts(a, b);
    if ConsumedBefore(a, i, r) {
      var j: nat, l: nat :| IsInput(a, j, l) && j < i && a[j].audioIn[l].peer == r;
      assert IsInput(b, j, l) && b[j].audioIn[l].peer == r;
    }
    if ConsumedBefore(b, i, r) {
      var j: nat, l: nat :| IsInput(b, j, l) && j < i && b[j].audioIn[l].peer == r;
      assert IsInput(a, j, l) && a[j].audioIn[l].peer == r;
    }
  }

  lemma {:induction false} SameGraphKeeps(a: seq<Instance>, b: seq<Instance>)
    requires SameGraph(a, b) && Forward(a) && OneConsumer(a)
    ensures Forward(b) && OneConsumer(b)
  {
    SameGraphSamePorts(a, b);
  }

  lemma {:induction false} SameGraphNeed(a: seq<Instance>, b: seq<Instance>, i: nat)
    requires SameGraph(a, b) && i <= |a|
    ensures NeedAfter(a, i) == NeedAfter(b, i)
  {
    if i > 0 {
      assert SameInstance(a[i - 1], b[i - 1]);
      SameGraphNeed(a, b, i - 1);
    }
  }

  function InputBuffers(inst: Instance): seq<nat> {
    seq(|inst.audioIn|, k requires 0 <= k < |inst.audioIn| => inst.audioIn[k].buf)
  }

  function OutputBuffers(inst: Instance): seq<nat> {
    seq(|inst.audioOut|, k requires 0 <= k < |inst.audioOut| => inst.audioOut[k].buf)
  }

  lemma {:induction false} OutputBuffersWritten(inst: Instance, b: nat)
    ensures WritesBuffer(inst, b) <==> b in OutputBuffers(inst)
  {
    if WritesBuffer(inst, b) {
      var k :| 0 <= k < |inst.audioOut| && inst.audioOut[k].buf == b;
      assert OutputBuffers(inst)[k] == b;
    }
  }

  /** Inputs take over the buffers of their peers; outputs take buffers that are free, or freed by the inputs. */
  ghost predicate AssignedAt(a: seq<Instance>, busy: seq<bool>, i: nat, inst: Instance, busy': seq<bool>)
    requires Forward(a) && i < |a|
  {
    && SameInstance(a[i], inst) && |busy'| == |busy|
    && (forall k :: 0 <= k < |inst.audioIn| ==>
          IsInput(a, i, k) && inst.audioIn[k].buf == BufferOf(a, a[i].audioIn[k].peer))
    && DistinctOutputs(inst)
    && (forall b :: b in OutputBuffers(inst) ==>
          b < |busy| && (busy[b] ==> !inst.inplaceBroken && b in InputBuffers(inst)))
    && (forall b :: 0 <= b < |busy| ==>
          (busy'[b] <==> (busy[b] && b !in InputBuffers(inst)) || b in OutputBuffers(inst)))
  }

  /** The state of the assignment after `i` instances. */
  ghost predicate Assigning(a: seq<Instance>, busy: seq<bool>, i: nat) {
    && Forward(a) && OneConsumer(a) && i <= |a|
    && BusyIsLive(a, busy, i) && SafeUpTo(a, |busy|, i)
    && BusyCount(busy) == NeedAfter(a, i)
  }

  /** After the step the buffers of ports written earlier are what they were. */
  lemma {:induction false} BufferKept(a: seq<Instance>, i: nat, inst: Instance, r: PortRef)
    requires i < |a| && SameInstance(a[i], inst)
    requires IsOutput(a, r) && r.instance != i
    ensures IsOutput(a[i := inst], r) && BufferOf(a[i := inst], r) == BufferOf(a, r)
  {
  }

  lemma {:induction false} StepSameGraph(a: seq<Instance>, i: nat, inst: Instance)
    requires i < |a| && SameInstance(a[i], inst)
    ensures SameGraph(a, a[i := inst])
  {
  }

  /** A port that stays live across instance `i` keeps its buffer busy and untouched. */
  lemma {:induction false} StaysLive(a: seq<Instance>, busy: seq<bool>, i: nat, inst: Instance, busy': seq<bool>,
                                     r: PortRef)
    requires Assigning(a, busy, i) && i < |a| && AssignedAt(a, busy, i, inst, busy')
    requires Live(a, i, r) && !ReadAt(a, i, r)
    ensures var b := a[i := inst];
            && IsOutput(b, r) && BufferOf(b, r) == BufferOf(a, r) && BufferOf(a, r) < |busy'| && busy'[BufferOf(a, r)]
            && !WritesBuffer(inst, BufferOf(a, r)) && Untouched(b, i + 1, r)
  {
    var b, buf := a[i := inst], BufferOf(a, r);
    BufferKept(a, i, inst, r);
    assert buf !in InputBuffers(inst) by {
      forall k | 0 <= k < |inst.audioIn|
        ensures inst.audioIn[k].buf != buf
      {
        PeerIsLive(a, i, k);
        assert ReadAt(a, i, a[i].audioIn[k].peer);
      }
    }
    OutputBuffersWritten(inst, buf);
    assert Untouched(a, i, r);
  }

  /** What instance `i` reads is safe once its buffers are assigned. */
  lemma {:induction false} ReadsSafely(a: seq<Instance>, busy: seq<bool>, i: nat, inst: Instance, busy': seq<bool>,
                                       k: nat)
    requires Assigning(a, busy, i) && i < |a| && AssignedAt(a, busy, i, inst, busy')
    requires k < |inst.audioIn|
    ensures var b := a[i := inst];
            IsInput(b, i, k) && IsOutput(b, b[i].audioIn[k].peer) && SafeInput(b, i, k)
  {
    var b, r := a[i := inst], a[i].audioIn[k].peer;
    PeerIsLive(a, i, k);
    BufferKept(a, i, inst, r);
    OutputBuffersWritten(inst, BufferOf(a, r));
    assert Untouched(a, i, r);
  }

  /** What earlier instances read stays safe. */
  lemma {:induction false} SafeStays(a: seq<Instance>, peak: nat, i: nat, inst: Instance, j: nat, k: nat)
    requires Forward(a) && i < |a| && SafeUpTo(a, peak, i) && SameInstance(a[i], inst)
    requires j < i && IsInput(a, j, k)
    ensures var b := a[i := inst];
            IsInput(b, j, k) && IsOutput(b, b[j].audioIn[k].peer) && SafeInput(b, j, k)
  {
    var r := a[j].audioIn[k].peer;
    assert SafeInput(a, j, k);
    BufferKept(a, i, inst, r);
    assert Untouched(a, j, r);
  }

  lemma {:induction false} StepSafe(a: seq<Instance>, busy: seq<bool>, i: nat, inst: Instance, busy': seq<bool>)
    requires Assigning(a, busy, i) && i < |a| && AssignedAt(a, busy, i, inst, busy')
    ensures Forward(a[i := inst]) && OneConsumer(a[i := inst]) && SafeUpTo(a[i := inst], |busy'|, i + 1)
  {
    var b := a[i := inst];
    StepSameGraph(a, i, inst);
    SameGraphKeeps(a, b);
    forall k | 0 <= k < |inst.audioOut|
      ensures inst.audioOut[k].buf < |busy'|
    {
      assert OutputBuffers(inst)[k] == inst.audioOut[k].buf;
      assert OutputBuffers(inst)[k] in OutputBuffers(inst);
    }
    forall j: nat, k: nat | j < i + 1 && IsInput(b, j, k)
      ensures SafeInput(b, j, k)
    {
      if j == i {
        ReadsSafely(a, busy, i, inst, busy', k);
      } else {
        SafeStays(a, |busy|, i, inst, j, k);
      }
    }
  }

  lemma {:induction false} FreshOutput(a: seq<Instance>, busy: seq<bool>, i: nat, inst: Instance, busy': seq<bool>,
                                       r: PortRef)
    requires Assigning(a, busy, i) && i < |a| && AssignedAt(a, busy, i, inst, busy')
    requires IsOutput(a[i := inst], r) && r.instance == i
    ensures var b := a[i := inst];
            BufferOf(b, r) < |busy'| && busy'[BufferOf(b, r)] && Untouched(b, i + 1, r)
              && WritesBuffer(inst, BufferOf(b, r))
  {
    assert OutputBuffers(inst)[r.port] == BufferOf(a[i := inst], r);
    assert OutputBuffers(inst)[r.port] in OutputBuffers(inst);
    OutputBuffersWritten(inst, BufferOf(a[i := inst], r));
  }

  lemma {:induction false} StepBusyIsLive(a: seq<Instance>, busy: seq<bool>, i: nat, inst: Instance, busy': seq<bool>)
    requires Assigning(a, busy, i) && i < |a| && AssignedAt(a, busy, i, inst, busy')
    ensures BusyIsLive(a[i := inst], busy', i + 1)
  {
    var b := a[i := inst];
    StepSameGraph(a, i, inst);
    forall r
      ensures Live(b, i + 1, r) <==> (Live(a, i, r) && !ReadAt(a, i, r)) || (IsOutput(b, r) && r.instance == i)
    {
      SameGraphLive(a, b, i + 1, r);
      SameGraphSamePorts(a, b);
      LiveStep(a, i, r);
    }
    forall r | Live(b, i + 1, r)
      ensures BufferOf(b, r) < |busy'| && busy'[BufferOf(b, r)] && Untouched(b, i + 1, r)
    {
      if r.instance == i {
        FreshOutput(a, busy, i, inst, busy', r);
      } else {
        StaysLive(a, busy, i, inst, busy', r);
      }
    }
    forall r, s | Live(b, i + 1, r) && Live(b, i + 1, s) && BufferOf(b, r) == BufferOf(b, s)
      ensures r == s
    {
      LiveBuffersDiffer(a, busy, i, inst, busy', r, s);
    }
    forall x | 0 <= x < |busy'| && busy'[x]
      ensures exists r :: Live(b, i + 1, r) && BufferOf(b, r) == x
    {
      var r := BusyHasLivePort(a, busy, i, inst, busy', x);
      assert Live(b, i + 1, r);
    }
  }

  lemma {:induction false} LiveBuffersDiffer(a: seq<Instance>, busy: seq<bool>, i: nat, inst: Instance,
                                             busy': seq<bool>, r: PortRef, s: PortRef)
    requires Assigning(a, busy, i) && i < |a| && AssignedAt(a, busy, i, inst, busy')
    requires (Live(a, i, r) && !ReadAt(a, i, r)) || (IsOutput(a[i := inst], r) && r.instance == i)
    requires (Live(a, i, s) && !ReadAt(a, i, s)) || (IsOutput(a[i := inst], s) && s.instance == i)
    ensures IsOutput(a[i := inst], r) && IsOutput(a[i := inst], s)
    ensures BufferOf(a[i := inst], r) == BufferOf(a[i := inst], s) ==> r == s
  {
    if r.instance == i {
      FreshOutput(a, busy, i, inst, busy', r);
    } else {
      StaysLive(a, busy, i, inst, busy', r);
    }
    if s.instance == i {
      FreshOutput(a, busy, i, inst, busy', s);
    } else {
      StaysLive(a, busy, i, inst, busy', s);
    }
  }

  lemma {:induction false} BusyHasLivePort(a: seq<Instance>, busy: seq<bool>, i: nat, inst: Instance, busy': seq<bool>,
                                           x: nat) returns (r: PortRef)
    requires Assigning(a, busy, i) && i < |a| && AssignedAt(a, busy, i, inst, busy')
    requires x < |busy'| && busy'[x]
    ensures (Live(a, i, r) && !ReadAt(a, i, r)) || (IsOutput(a[i := inst], r) && r.instance == i)
    ensures IsOutput(a[i := inst], r) && BufferOf(a[i := inst], r) == x
  {
    if x in OutputBuffers(inst) {
      var k :| 0 <= k < |inst.audioOut| && OutputBuffers(inst)[k] == x;
      r := PortRef(i, k);
    } else {
      r :| Live(a, i, r) && BufferOf(a, r) == x;
      BufferKept(a, i, inst, r);
      forall k: nat | IsInput(a, i, k)
        ensures a[i].audioIn[k].peer != r
      {
        assert InputBuffers(inst)[k] in InputBuffers(inst);
      }
    }
  }

  // ----- the assignment itself -----

  ghost predicate TakeOverBuffers(instances: seq<Instance>, i: nat, ins: seq<AudioIn>)
    requires Forward(instances) && i < |instances| && |ins| <= |instances[i].audioIn|
  {
    forall k :: 0 <= k < |ins| ==>
      IsInput(instances, i, k)
        && ins[k] == instances[i].audioIn[k].(buf := BufferOf(instances, instances[i].audioIn[k].peer))
  }

  method CollectInputs(instances: seq<Instance>, i: nat) returns (ins: seq<AudioIn>)
    requires Forward(instances) && i < |instances|
    ensures |ins| == |instances[i].audioIn|
    ensures TakeOverBuffers(instances, i, ins)
  {
    ins := [];
    for j := 0 to |instances[i].audioIn|
      invariant |ins| == j && TakeOverBuffers(instances, i, ins)
    {
      assert IsInput(instances, i, j);
      var port := instances[i].audioIn[j];
      ins := ins + [port.(buf := BufferOf(instances, port.peer))];
    }
  }

  function WithBuffers(ports: seq<AudioOut>, bufs: seq<nat>): (r: seq<AudioOut>)
    requires |ports| == |bufs|
    ensures |r| == |ports| && forall k :: 0 <= k < |r| ==> r[k] == ports[k].(buf := bufs[k])
  {
    seq(|ports|, k requires 0 <= k < |ports| => ports[k].(buf := bufs[k]))
  }

  /** The buffers the inputs of an instance take over are busy, and no two are the same. */
  lemma {:induction false} InputsAreBusy(a: seq<Instance>, busy: seq<bool>, i: nat, ins: seq<AudioIn>)
    requires Assigning(a, busy, i) && i < |a| && |ins| == |a[i].audioIn| && TakeOverBuffers(a, i, ins)
    ensures forall k :: 0 <= k < |ins| ==> ins[k].buf < |busy| && busy[ins[k].buf]
    ensures forall k, l :: 0 <= k < l < |ins| ==> ins[k].buf != ins[l].buf
    ensures BusyCount(busy) == NeedAfter(a, i)
  {
    forall k | 0 <= k < |ins|
      ensures Live(a, i, a[i].audioIn[k].peer) && ins[k].buf < |busy| && busy[ins[k].buf]
    {
      PeerIsLive(a, i, k);
    }
    forall k, l | 0 <= k < l < |ins|
      ensures ins[k].buf != ins[l].buf
    {
      assert IsInput(a, i, k) && IsInput(a, i, l);
      assert Live(a, i, a[i].audioIn[k].peer) && Live(a, i, a[i].audioIn[l].peer);
    }
  }

  /** Output buffers are taken before the input buffers are given back, or after, as the module demands. */
  method ExchangeBuffers(busy: array<bool>, inBufs: seq<nat>, n: nat, inplaceBroken: bool) returns (bufs: seq<nat>)
    requires Distinct(inBufs) && forall i :: 0 <= i < |inBufs| ==> inBufs[i] < busy.Length && busy[inBufs[i]]
    requires BusyCount(busy[..]) + n - (if inplaceBroken then 0 else |inBufs|) <= busy.Length
    modifies busy
    ensures |bufs| == n && Distinct(bufs)
    ensures forall b :: b in bufs ==> b < busy.Length && (old(busy[..])[b] ==> !inplaceBroken && b in inBufs)
    ensures forall b :: 0 <= b < busy.Length ==> (busy[b] <==> (old(busy[..])[b] && b !in inBufs) || b in bufs)
    ensures BusyCount(busy[..]) == old(BusyCount(busy[..])) + n - |inBufs|
  {
    if inplaceBroken {
      bufs := UseBuffers(busy, n);
      UnuseBuffers(busy, inBufs);
    } else {
      UnuseBuffers(busy, inBufs);
      bufs := UseBuffers(busy, n);
    }
  }

  method AllocateInstance(a: seq<Instance>, i: nat, busy: array<bool>) returns (inst: Instance)
    requires Assigning(a, busy[..], i) && i < |a| && NeedDuring(a, i) <= busy.Length
    modifies busy
    ensures AssignedAt(a, old(busy[..]), i, inst, busy[..])
    ensures BusyCount(busy[..]) == NeedAfter(a, i + 1)
  {
    hide BusyIsLive, SafeUpTo, OneConsumer;
    var ins := CollectInputs(a, i);
    InputsAreBusy(a, busy[..], i, ins);
    ghost var was := busy[..];
    var bufs := ExchangeBuffers(busy, InputBuffers(a[i].(audioIn := ins)), |a[i].audioOut|, a[i].inplaceBroken);
    inst := a[i].(audioIn := ins, audioOut := WithBuffers(a[i].audioOut, bufs));
    assert InputBuffers(inst) == InputBuffers(a[i].(audioIn := ins));
    assert OutputBuffers(inst) == bufs;
  }

  lemma {:induction false} NothingAssigned(a: seq<Instance>, busy: seq<bool>)
    requires Forward(a) && OneConsumer(a)
    requires forall b :: 0 <= b < |busy| ==> !busy[b]
    ensures Assigning(a, busy, 0)
  {
    NoneBusyCount(busy);
  }

  lemma {:induction false} NextAssigned(original: seq<Instance>, a: seq<Instance>, busy: seq<bool>, i: nat,
                                        inst: Instance, busy': seq<bool>)
    requires SameGraph(original, a) && Assigning(a, busy, i) && i < |a| && AssignedAt(a, busy, i, inst, busy')
    requires BusyCount(busy') == NeedAfter(a, i + 1)
    ensures SameGraph(original, a[i := inst]) && Assigning(a[i := inst], busy', i + 1)
  {
    StepSafe(a, busy, i, inst, busy');
    StepBusyIsLive(a, busy, i, inst, busy');
    StepSameGraph(a, i, inst);
    SameGraphTrans(original, a, a[i := inst]);
    SameGraphNeed(a, a[i := inst], i + 1);
  }

  /** Assigns the buffers of one more instance. */
  method AllocateNext(p: Pipeline, ghost original: seq<Instance>, i: nat, busy: array<bool>)
    requires SameGraph(original, p.instances) && Assigning(p.instances, busy[..], i) && i < |p.instances|
    requires NeedDuring(original, i) <= busy.Length
    modifies p`instances, busy
    ensures SameGraph(original, p.instances) && Assigning(p.instances, busy[..], i + 1)
  {
    hide SameGraph, Assigning, AssignedAt, NeedDuring;
    ghost var a, was := p.instances, busy[..];
    SameGraphSameLength(original, a);
    SameNeedDuring(original, a, i);
    var inst := AllocateInstance(p.instances, i, busy);
    p.instances := p.instances[i := inst];
    NextAssigned(original, a, was, i, inst, busy[..]);
  }

  /** Giving out buffers changes no instance's need for them. */
  ghost predicate SameNeeds(a: seq<Instance>, b: seq<Instance>) {
    |a| == |b| && forall i :: 0 <= i < |a| ==> NeedDuring(b, i) == NeedDuring(a, i)
  }

  method AssignBuffers(p: Pipeline, peak: nat)
    requires Forward(p.instances) && OneConsumer(p.instances)
    requires forall i :: 0 <= i < |p.instances| ==> NeedDuring(p.instances, i) <= peak
    modifies p`instances
    ensures SameGraph(old(p.instances), p.instances) && Forward(p.instances) && OneConsumer(p.instances)
    ensures SafeUpTo(p.instances, peak, |p.instances|) && SameNeeds(old(p.instances), p.instances)
  {
    var busy := new bool[peak](_ => false);
    ghost var original := p.instances;
    NothingAssigned(original, busy[..]);
    SameGraphRefl(original);
    hide *;
    for i := 0 to |p.instances|
      modifies p`instances, busy
      invariant |p.instances| == |original| && SameGraph(original, p.instances)
      invariant Assigning(p.instances, busy[..], i)
    {
      AllocateNext(p, original, i, busy);
    }
    AllAssigned(original, p.instances, busy[..]);
  }

  lemma {:induction false} AllAssigned(original: seq<Instance>, a: seq<Instance>, busy: seq<bool>)
    requires SameGraph(original, a) && Assigning(a, busy, |a|)
    ensures Forward(a) && OneConsumer(a) && SafeUpTo(a, |busy|, |a|) && SameNeeds(original, a)
  {
    hide NeedDuring;
    forall i | 0 <= i < |original|
      ensures NeedDuring(a, i) == NeedDuring(original, i)
    {
      SameNeedDuring(original, a, i);
    }
  }

  /**
   * Assigns a buffer to every port. The number of buffers from the counting pass always suffices: every search for a
   * free buffer ends below it.
   */
  method AllocateBuffers(p: Pipeline)
    requires Forward(p.instances) && OneConsumer(p.instances)
    modifies p
    ensures SameGraph(old(p.instances), p.instances) && Forward(p.instances) && OneConsumer(p.instances)
    ensures SafeUpTo(p.instances, p.peakBuf, |p.instances|)
    ensures forall i :: 0 <= i < |p.instances| ==> NeedDuring(p.instances, i) <= p.peakBuf
    ensures p.peakBuf == 0 || exists i :: 0 <= i < |p.instances| && NeedDuring(p.instances, i) == p.peakBuf
  {
    hide SameGraph, NeedDuring, Forward, OneConsumer, SafeUpTo;
    p.peakBuf := CountBuffers(p.instances);
    ghost var original := p.instances;
    AssignBuffers(p, p.peakBuf);
    assert SameNeeds(original, p.instances);
  }

  lemma {:induction false} SameGraphSameLength(a: seq<Instance>, b: seq<Instance>)
    requires SameGraph(a, b)
    ensures |a| == |b|
  {
  }

  lemma {:induction false} SameGraphRefl(a: seq<Instance>)
    ensures SameGraph(a, a)
  {
  }

  lemma {:induction false} SameGraphTrans(a: seq<Instance>, b: seq<Instance>, c: seq<Instance>)
    requires SameGraph(a, b) && SameGraph(b, c)
    ensures SameGraph(a, c)
  {
    forall i | 0 <= i < |a|
      ensures SameInstance(a[i], c[i])
    {
      assert SameInstance(a[i], b[i]) && SameInstance(b[i], c[i]);
    }
  }

  lemma {:induction false} SameNeedDuring(a: seq<Instance>, b: seq<Instance>, i: nat)
    requires SameGraph(a, b) && i < |a|
    ensures NeedDuring(a, i) == NeedDuring(b, i)
  {
    assert SameInstance(a[i], b[i]);
    SameGraphNeed(a, b, i);
    SameGraphNeed(a, b, i + 1);
  }
}
