/** What the counted peak is: the ports that are in use at one time, and no allocation does with fewer buffers. */
module DspPeak {
  import opened DspTypes
  import opened DspBuffers

  // ----- the need is a number of ports -----

  /** The first `n` outputs of instance `i`. */
  ghost function OutputsOf(i: nat, n: nat): (s: set<PortRef>)
    ensures |s| == n && forall r :: r in s <==> r.instance == i && r.port < n
  {
    if n == 0 then {} else OutputsOf(i, n - 1) + {PortRef(i, n - 1)}
  }

  ghost function Elements(s: seq<PortRef>): (r: set<PortRef>)
    ensures forall x :: x in r <==> x in s
  {
    set x | x in s
  }

  lemma {:induction false} DifferentCount(s: seq<PortRef>)
    requires forall k, l :: 0 <= k < l < |s| ==> s[k] != s[l]
    ensures |Elements(s)| == |s|
  {
    if s != [] {
      var init, x := s[..|s| - 1], s[|s| - 1];
      DifferentCount(init);
      assert Elements(s) == Elements(init) + {x};
      assert x !in init;
    }
  }

  function PeerList(inst: Instance): (s: seq<PortRef>)
    ensures |s| == |inst.audioIn| && forall k :: 0 <= k < |s| ==> s[k] == inst.audioIn[k].peer
  {
    seq(|inst.audioIn|, k requires 0 <= k < |inst.audioIn| => inst.audioIn[k].peer)
  }

  /** The ports that instance `i` reads. */
  ghost function PeersOf(instances: seq<Instance>, i: nat): (s: set<PortRef>)
    requires i < |instances|
    ensures forall r :: r in s <==> ReadAt(instances, i, r)
  {
    var list := PeerList(instances[i]);
    assert forall k: nat :: IsInput(instances, i, k) ==> instances[i].audioIn[k].peer == list[k];
    assert forall k :: 0 <= k < |list| ==> IsInput(instances, i, k);
    Elements(list)
  }

  lemma {:induction false} PeersCount(instances: seq<Instance>, i: nat)
    requires OneConsumer(instances) && i < |instances|
    ensures |PeersOf(instances, i)| == |instances[i].audioIn|
  {
    var list := PeerList(instances[i]);
    forall k: nat, l: nat | k < l < |list|
      ensures list[k] != list[l]
    {
      assert IsInput(instances, i, k) && IsInput(instances, i, l);
    }
    DifferentCount(list);
  }

  /** The ports that have been written by the first `i` instances and not been read by them. */
  ghost function LivePorts(instances: seq<Instance>, i: nat): (s: set<PortRef>)
    requires i <= |instances|
    ensures AreLive(instances, i, s)
  {
    set k: nat, l: nat | k < i && l < |instances[k].audioOut| && Live(instances, i, PortRef(k, l)) :: PortRef(k, l)
  }

  ghost predicate AreLive(instances: seq<Instance>, i: nat, s: set<PortRef>) {
    forall r :: r in s <==> Live(instances, i, r)
  }

  ghost function Moved(before: set<PortRef>, read: set<PortRef>, written: set<PortRef>): set<PortRef> {
    before - read + written
  }

  lemma {:induction false} LivePortsStep(instances: seq<Instance>, i: nat, before: set<PortRef>, after: set<PortRef>)
    requires Forward(instances) && i < |instances|
    requires after == Moved(before, PeersOf(instances, i), OutputsOf(i, |instances[i].audioOut|))
    requires AreLive(instances, i, before)
    ensures AreLive(instances, i + 1, after)
  {
    hide Forward, Live, ReadAt, PeersOf, OutputsOf;
    forall r
      ensures r in after <==> Live(instances, i + 1, r)
    {
      LiveStep(instances, i, r);
    }
  }

  /** What is counted between two instances are the ports written and not yet read. */
  lemma {:induction false} NeedIsLive(instances: seq<Instance>, i: nat)
    requires Forward(instances) && OneConsumer(instances) && i <= |instances|
    ensures NeedAfter(instances, i) == |LivePorts(instances, i)|
  {
    if i > 0 {
      NeedIsLive(instances, i - 1);
      LiveCountNext(instances, i - 1);
    }
  }

  lemma {:induction false} LiveCountNext(instances: seq<Instance>, i: nat)
    requires Forward(instances) && OneConsumer(instances) && i < |instances|
    ensures |LivePorts(instances, i + 1)| ==
              |LivePorts(instances, i)| + |instances[i].audioOut| - |instances[i].audioIn|
  {
    var before, after := LivePorts(instances, i), LivePorts(instances, i + 1);
    var moved := Moved(before, PeersOf(instances, i), OutputsOf(i, |instances[i].audioOut|));
    LivePortsStep(instances, i, before, moved);
    SameLive(instances, i + 1, after, moved);
    PeersCount(instances, i);
    PeersWereLive(instances, i);
    CountAfter(LivePorts(instances, i), PeersOf(instances, i), OutputsOf(i, |instances[i].audioOut|));
    hide *;
  }

  lemma {:induction false} SameLive(instances: seq<Instance>, i: nat, s: set<PortRef>, t: set<PortRef>)
    requires AreLive(instances, i, s) && AreLive(instances, i, t)
    ensures s == t
  {
    hide Live;
  }

  lemma {:induction false} CountAfter(before: set<PortRef>, read: set<PortRef>, written: set<PortRef>)
    requires read <= before && before !! written
    ensures |Moved(before, read, written)| == |before| - |read| + |written|
  {
    assert |before - read| == |before| - |read|;
    assert |before - read + written| == |before - read| + |written|;
  }

  lemma {:induction false} PeersWereLive(instances: seq<Instance>, i: nat)
    requires Forward(instances) && OneConsumer(instances) && i < |instances|
    ensures PeersOf(instances, i) <= LivePorts(instances, i)
    ensures LivePorts(instances, i) !! OutputsOf(i, |instances[i].audioOut|)
  {
    forall r | r in PeersOf(instances, i)
      ensures Live(instances, i, r)
    {
      var k: nat :| IsInput(instances, i, k) && instances[i].audioIn[k].peer == r;
      PeerIsLive(instances, i, k);
    }
  }

  /** The ports in use while instance `i` runs: in place, outputs may take over from inputs. */
  ghost function PortsDuring(instances: seq<Instance>, i: nat): set<PortRef>
    requires i < |instances|
  {
    if instances[i].inplaceBroken then LivePorts(instances, i) + OutputsOf(i, |instances[i].audioOut|)
    else LivePorts(instances, i + 1)
  }

  /** The need of an instance is the number of ports that are in use while it runs. */
  lemma {:induction false} NeedIsPorts(instances: seq<Instance>, i: nat)
    requires Forward(instances) && OneConsumer(instances) && i < |instances|
    ensures NeedDuring(instances, i) == |PortsDuring(instances, i)|
  {
    NeedIsLive(instances, i);
    NeedIsLive(instances, i + 1);
    PeersWereLive(instances, i);
  }

  // ----- no allocation does with fewer -----

  /** Every output is read. */
  ghost predicate AllRead(instances: seq<Instance>) {
    forall r :: IsOutput(instances, r) ==> ConsumedBefore(instances, |instances|, r)
  }

  /** In a safe allocation two ports that are in use while instance `i` runs have different buffers. */
  lemma {:induction false} InUseDiffer(instances: seq<Instance>, size: nat, i: nat, r: PortRef, s: PortRef)
    requires Forward(instances) && OneConsumer(instances) && SafeUpTo(instances, size, |instances|)
             && AllRead(instances)
    requires i < |instances| && r in PortsDuring(instances, i) && s in PortsDuring(instances, i) && r != s
    requires r.instance <= s.instance
    ensures IsOutput(instances, r) && IsOutput(instances, s) && BufferOf(instances, r) < size
    ensures BufferOf(instances, r) != BufferOf(instances, s)
  {
    InUse(instances, i, r);
    InUse(instances, i, s);
    BufferBelow(instances, size, r);
    if r.instance == s.instance {
      OwnBuffers(instances, size, r, s);
    } else {
      var j: nat, l: nat :| IsInput(instances, j, l) && instances[j].audioIn[l].peer == r;
      ReadLater(instances, i, r, j, l);
      hide PortsDuring, AllRead, OneConsumer;
      NotRewritten(instances, size, j, l, s);
    }
  }

  lemma {:induction false} BufferBelow(instances: seq<Instance>, size: nat, r: PortRef)
    requires Forward(instances) && SafeUpTo(instances, size, |instances|) && IsOutput(instances, r)
    ensures BufferOf(instances, r) < size
  {
  }

  lemma {:induction false} OwnBuffers(instances: seq<Instance>, size: nat, r: PortRef, s: PortRef)
    requires Forward(instances) && SafeUpTo(instances, size, |instances|) && IsOutput(instances, r)
    requires IsOutput(instances, s) && r != s && r.instance == s.instance
    ensures BufferOf(instances, r) != BufferOf(instances, s)
  {
    assert DistinctOutputs(instances[r.instance]);
  }

  /** What is written between a writer and its reader goes to another buffer. */
  lemma {:induction false} NotRewritten(instances: seq<Instance>, size: nat, j: nat, l: nat, s: PortRef)
    requires Forward(instances) && SafeUpTo(instances, size, |instances|) && IsInput(instances, j, l)
    requires IsOutput(instances, s) && instances[j].audioIn[l].peer.instance < s.instance
    requires s.instance < j || (s.instance == j && instances[j].inplaceBroken)
    ensures BufferOf(instances, instances[j].audioIn[l].peer) != BufferOf(instances, s)
  {
    assert SafeInput(instances, j, l);
    assert WritesBuffer(instances[s.instance], BufferOf(instances, s));
  }

  /** A port in use while instance `i` runs was written by then. */
  lemma {:induction false} InUse(instances: seq<Instance>, i: nat, r: PortRef)
    requires Forward(instances) && i < |instances| && r in PortsDuring(instances, i)
    ensures IsOutput(instances, r) && r.instance <= i
    ensures r.instance < i && !instances[i].inplaceBroken ==> !ConsumedBefore(instances, i + 1, r)
    ensures r.instance < i && instances[i].inplaceBroken ==> !ConsumedBefore(instances, i, r)
  {
  }

  lemma {:induction false} ReadLater(instances: seq<Instance>, i: nat, r: PortRef, j: nat, l: nat)
    requires i < |instances| && IsInput(instances, j, l) && instances[j].audioIn[l].peer == r
    requires if instances[i].inplaceBroken then !ConsumedBefore(instances, i, r)
             else !ConsumedBefore(instances, i + 1, r)
    ensures j >= i && (!instances[i].inplaceBroken ==> j > i)
  {
  }

  /** Different buffers below a size are at most that many. */
  lemma {:induction false} DifferentBuffers(instances: seq<Instance>, s: set<PortRef>, size: nat)
    requires forall r :: r in s ==> IsOutput(instances, r) && BufferOf(instances, r) < size
    requires forall r, t :: r in s && t in s && r != t ==> BufferOf(instances, r) != BufferOf(instances, t)
    ensures |s| <= size
  {
    if s == {} {
    } else if x :| x in s && BufferOf(instances, x) == size - 1 {
      DifferentBuffers(instances, s - {x}, size - 1);
    } else {
      var x :| x in s;
      DifferentBuffers(instances, s, size - 1);
    }
  }

  /**
   * No safe allocation for the same graph, in which every output is read, has fewer buffers than an instance needs, so
   * none has fewer than the counted peak.
   */
  lemma {:induction false} PeakIsLeast(original: seq<Instance>, instances: seq<Instance>, size: nat, i: nat)
    requires SameGraph(original, instances) && Forward(original) && OneConsumer(original) && i < |original|
    requires Forward(instances) && SafeUpTo(instances, size, |instances|) && AllRead(instances)
    ensures NeedDuring(original, i) <= size
  {
    SameGraphKeeps(original, instances);
    SameGraphSameLength(original, instances);
    SameNeedDuring(original, instances, i);
    NeedIsPorts(instances, i);
    hide SameGraph, Forward, OneConsumer, SafeUpTo, AllRead, PortsDuring, NeedDuring;
    var used := PortsDuring(instances, i);
    forall r | r in used
      ensures IsOutput(instances, r) && BufferOf(instances, r) < size
    {
      InUse(instances, i, r);
      BufferBelow(instances, size, r);
    }
    forall r, t | r in used && t in used && r != t
      ensures BufferOf(instances, r) != BufferOf(instances, t)
    {
      if r.instance <= t.instance {
        InUseDiffer(instances, size, i, r, t);
      } else {
        InUseDiffer(instances, size, i, t, r);
      }
    }
    DifferentBuffers(instances, used, size);
  }
}
