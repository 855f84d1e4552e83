/** The buffering delay from the source to every instance: the longest way through the graph. */
module DspDelay {
  import opened DspTypes

  ghost predicate Feeds(instances: seq<Instance>, from: nat, to: nat) {
    exists k: nat :: IsInput(instances, to, k) && instances[to].audioIn[k].peer.instance == from
  }

  /** A chain of instances, each feeding the next one. */
  ghost predicate IsPath(instances: seq<Instance>, path: seq<nat>) {
    && path != [] && (forall t :: 0 <= t < |path| ==> path[t] < |instances|)
    && forall t :: 0 <= t < |path| - 1 ==> Feeds(instances, path[t], path[t + 1])
  }

  ghost function PathDelay(instances: seq<Instance>, path: seq<nat>): int
    requires forall t :: 0 <= t < |path| ==> path[t] < |instances|
  {
    if path == [] then 0 else PathDelay(instances, path[..|path| - 1]) + instances[path[|path| - 1]].delay
  }

  /** No path to instance `i` takes longer than `total`, and one takes exactly that long. */
  ghost predicate LongestPathTo(instances: seq<Instance>, i: nat, total: int) {
    && (forall path :: IsPath(instances, path) && path[|path| - 1] == i ==> PathDelay(instances, path) <= total)
    && (exists path :: IsPath(instances, path) && path[|path| - 1] == i && PathDelay(instances, path) == total)
  }

  /** The same graph and the same module delays. */
  ghost predicate SameDelays(a: seq<Instance>, b: seq<Instance>) {
    |a| == |b| && forall i :: 0 <= i < |a| ==> b[i] == a[i].(totalDelay := b[i].totalDelay)
  }

  lemma {:induction false} SameDelaysPath(a: seq<Instance>, b: seq<Instance>, path: seq<nat>)
    requires SameDelays(a, b)
    ensures IsPath(a, path) <==> IsPath(b, path)
    ensures (forall t :: 0 <= t < |path| ==> path[t] < |a|) ==> PathDelay(a, path) == PathDelay(b, path)
  {
    assert forall from: nat, to: nat :: Feeds(a, from, to) <==> Feeds(b, from, to) by {
      forall from: nat, to: nat
        ensures Feeds(a, from, to) <==> Feeds(b, from, to)
      {
        if Feeds(a, from, to) {
          var k: nat :| IsInput(a, to, k) && a[to].audioIn[k].peer.instance == from;
          assert IsInput(b, to, k);
        }
        if Feeds(b, from, to) {
          var k: nat :| IsInput(b, to, k) && b[to].audioIn[k].peer.instance == from;
          assert IsInput(a, to, k);
        }
      }
    }
    if path != [] && forall t :: 0 <= t < |path| ==> path[t] < |a| {
      SameDelaysPath(a, b, path[..|path| - 1]);
    }
  }

  lemma {:induction false} SameDelaysLongest(a: seq<Instance>, b: seq<Instance>, i: nat, total: int)
    requires SameDelays(a, b) && LongestPathTo(a, i, total)
    ensures LongestPathTo(b, i, total)
  {
    forall path | IsPath(b, path) && path[|path| - 1] == i
      ensures PathDelay(b, path) <= total
    {
      SameDelaysPath(a, b, path);
    }
    var best :| IsPath(a, best) && best[|best| - 1] == i && PathDelay(a, best) == total;
    SameDelaysPath(a, b, best);
  }

  /** `most` is the greatest of zero and the delays of the first `n` inputs of instance `i`. */
  ghost predicate MostOfInputs(instances: seq<Instance>, i: nat, n: nat, most: int)
    requires Forward(instances) && i < |instances| && n <= |instances[i].audioIn|
  {
    && most >= 0
    && (forall k: nat :: k < n && IsInput(instances, i, k) ==>
          instances[instances[i].audioIn[k].peer.instance].totalDelay <= most)
    && (most == 0
        || exists k: nat ::
             && k < n && IsInput(instances, i, k)
             && instances[instances[i].audioIn[k].peer.instance].totalDelay == most)
  }

  /** A path to `i` is `i` alone, or a path to the peer of one of its inputs followed by `i`. */
  lemma {:induction false} PathComesThroughInput(instances: seq<Instance>, i: nat, path: seq<nat>) returns (k: nat)
    requires Forward(instances) && IsPath(instances, path) && path[|path| - 1] == i && |path| > 1
    ensures IsInput(instances, i, k) && IsPath(instances, path[..|path| - 1])
    ensures path[|path| - 2] == instances[i].audioIn[k].peer.instance
    ensures PathDelay(instances, path) == PathDelay(instances, path[..|path| - 1]) + instances[i].delay
  {
    assert Feeds(instances, path[|path| - 2], path[|path| - 1]);
    k :| IsInput(instances, i, k) && instances[i].audioIn[k].peer.instance == path[|path| - 2];
    var init := path[..|path| - 1];
    forall t | 0 <= t < |init| - 1
      ensures Feeds(instances, init[t], init[t + 1])
    {
      assert Feeds(instances, path[t], path[t + 1]);
    }
  }

  lemma {:induction false} NoLongerPath(instances: seq<Instance>, i: nat, most: int, path: seq<nat>)
    requires Forward(instances) && i < |instances|
    requires forall j: nat :: j < i ==> LongestPathTo(instances, j, instances[j].totalDelay)
    requires MostOfInputs(instances, i, |instances[i].audioIn|, most)
    requires IsPath(instances, path) && path[|path| - 1] == i
    ensures PathDelay(instances, path) <= most + instances[i].delay
  {
    if |path| == 1 {
      assert path[..0] == [];
      assert PathDelay(instances, path[..0]) == 0;
    } else {
      var k := PathComesThroughInput(instances, i, path);
      var from := instances[i].audioIn[k].peer.instance;
      assert LongestPathTo(instances, from, instances[from].totalDelay);
      hide PathDelay;
      assert PathDelay(instances, path[..|path| - 1]) <= instances[from].totalDelay;
    }
  }

  lemma {:induction false} ExtendPath(instances: seq<Instance>, best: seq<nat>, i: nat)
    requires IsPath(instances, best) && i < |instances| && Feeds(instances, best[|best| - 1], i)
    ensures IsPath(instances, best + [i])
    ensures PathDelay(instances, best + [i]) == PathDelay(instances, best) + instances[i].delay
  {
    var path := best + [i];
    assert path[..|path| - 1] == best;
    forall t | 0 <= t < |path| - 1
      ensures Feeds(instances, path[t], path[t + 1])
    {
      if t < |best| - 1 {
        assert Feeds(instances, best[t], best[t + 1]);
      }
    }
  }

  lemma {:induction false} SomePathAsLong(instances: seq<Instance>, i: nat, most: int) returns (path: seq<nat>)
    requires Forward(instances) && i < |instances|
    requires forall j: nat :: j < i ==> LongestPathTo(instances, j, instances[j].totalDelay)
    requires MostOfInputs(instances, i, |instances[i].audioIn|, most)
    ensures IsPath(instances, path) && path[|path| - 1] == i && PathDelay(instances, path) == most + instances[i].delay
  {
    if most == 0 {
      path := [i];
      assert path[..0] == [];
      assert PathDelay(instances, path[..0]) == 0;
    } else {
      var k: nat :| IsInput(instances, i, k) && instances[instances[i].audioIn[k].peer.instance].totalDelay == most;
      var from := instances[i].audioIn[k].peer.instance;
      assert LongestPathTo(instances, from, most);
      var best :| IsPath(instances, best) && best[|best| - 1] == from && PathDelay(instances, best) == most;
      assert Feeds(instances, from, i);
      ExtendPath(instances, best, i);
      path := best + [i];
    }
  }

  lemma {:induction false} LongestOfInputs(instances: seq<Instance>, i: nat, most: int)
    requires Forward(instances) && i < |instances|
    requires forall j: nat :: j < i ==> LongestPathTo(instances, j, instances[j].totalDelay)
    requires MostOfInputs(instances, i, |instances[i].audioIn|, most)
    ensures LongestPathTo(instances, i, most + instances[i].delay)
  {
    forall path | IsPath(instances, path) && path[|path| - 1] == i
      ensures PathDelay(instances, path) <= most + instances[i].delay
    {
      NoLongerPath(instances, i, most, path);
    }
    var path := SomePathAsLong(instances, i, most);
  }

  lemma {:induction false} FindsTheInstance(instances: seq<Instance>, i: nat)
    requires PluginsDistinct(instances) && i < |instances|
    ensures FindInstance(instances, instances[i].plugin) == i
  {
  }

  /** The most delay of any module that provides input to instance `i`. */
  method MostInputDelay(instances: seq<Instance>, i: nat) returns (delay: int)
    requires Forward(instances) && PluginsDistinct(instances) && i < |instances|
    ensures MostOfInputs(instances, i, |instances[i].audioIn|, delay)
  {
    delay := 0;
    for j := 0 to |instances[i].audioIn|
      invariant MostOfInputs(instances, i, j, delay)
    {
      assert IsInput(instances, i, j);
      var peer := instances[i].audioIn[j].peer;
      FindsTheInstance(instances, peer.instance);
      var total := instances[FindInstance(instances, instances[peer.instance].plugin)].totalDelay;
      delay := if total > delay then total else delay;
    }
  }

  /** One pass over the instances gives every one of them the delay of the longest path to it. */
  method CalculateAudioDelay(p: Pipeline)
    requires Forward(p.instances) && PluginsDistinct(p.instances)
    modifies p`instances
    ensures SameDelays(old(p.instances), p.instances)
    ensures forall i: nat :: i < |p.instances| ==> LongestPathTo(p.instances, i, p.instances[i].totalDelay)
  {
    hide LongestPathTo, PluginsDistinct, Forward, MostOfInputs;
    for i := 0 to |p.instances|
      invariant SameDelays(old(p.instances), p.instances)
      invariant Forward(p.instances) && PluginsDistinct(p.instances)
      invariant forall j: nat :: j < i ==> LongestPathTo(p.instances, j, p.instances[j].totalDelay)
    {
      ghost var before := p.instances;
      var delay := MostInputDelay(p.instances, i);
      p.instances := p.instances[i := p.instances[i].(totalDelay := delay + p.instances[i].delay)];
      NextDelay(before, i, delay);
    }
  }

  lemma {:induction false} NextDelay(a: seq<Instance>, i: nat, most: int)
    requires Forward(a) && PluginsDistinct(a) && i < |a| && MostOfInputs(a, i, |a[i].audioIn|, most)
    requires forall j: nat :: j < i ==> LongestPathTo(a, j, a[j].totalDelay)
    ensures var b := a[i := a[i].(totalDelay := most + a[i].delay)];
            && SameDelays(a, b) && Forward(b) && PluginsDistinct(b)
            && forall j: nat :: j < i + 1 ==> LongestPathTo(b, j, b[j].totalDelay)
  {
    var b := a[i := a[i].(totalDelay := most + a[i].delay)];
    LongestOfInputs(a, i, most);
    SameDelaysForward(a, b);
    hide LongestPathTo;
    forall j: nat | j < i + 1
      ensures LongestPathTo(b, j, b[j].totalDelay)
    {
      SameDelaysLongest(a, b, j, b[j].totalDelay);
    }
  }

  lemma {:induction false} SameDelaysForward(a: seq<Instance>, b: seq<Instance>)
    requires SameDelays(a, b) && Forward(a)
    ensures Forward(b)
  {
    forall i: nat, k: nat | IsInput(b, i, k)
      ensures IsOutput(b, b[i].audioIn[k].peer) && b[i].audioIn[k].peer.instance < i
    {
      assert IsInput(a, i, k);
    }
  }
}
