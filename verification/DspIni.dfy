/** The static form of a DSP graph: plugins whose ports are joined by named flows. */
module DspIni {
  import opened Options

  const MAX_NR_PORT: nat := 128

  datatype Direction = Input | Output

  datatype Kind = Control | Audio

  datatype FlowRef = NoFlow | InFlow(id: nat)

  datatype Port = Port(direction: Direction, kind: Kind, flow: FlowRef)

  /** `disabled` is the value of the disable expression of the plugin. */
  datatype Plugin = Plugin(ports: seq<Port>, disabled: bool)

  datatype Endpoint = Nowhere | At(plugin: nat, port: nat)

  datatype Flow = Flow(name: string, from: Endpoint, to: Endpoint)

  datatype Graph = Graph(plugins: seq<Plugin>, flows: seq<Flow>)

  /**
   * One section of the file: where its plugin is, its port entries by number, and the value of its disable expression.
   */
  datatype Section = Section(library: Option<string>, label_: Option<string>, inputs: map<nat, string>,
                             outputs: map<nat, string>, disabled: bool)

  predicate IsPort(plugins: seq<Plugin>, p: nat, j: nat) {
    p < |plugins| && j < |plugins[p].ports|
  }

  /** Port `j` of plugin `p` is an end of flow `f`. */
  predicate InFlowAt(plugins: seq<Plugin>, p: nat, j: nat, f: nat) {
    IsPort(plugins, p, j) && plugins[p].ports[j].flow == InFlow(f)
  }

  // ----- reading the ports -----

  predicate HasPort(section: Section, i: nat) {
    i in section.inputs || i in section.outputs
  }

  function PortText(section: Section, i: nat): string
    requires HasPort(section, i)
  {
    if i in section.inputs then section.inputs[i] else section.outputs[i]
  }

  predicate NamesFlow(text: string) {
    text != "" && (text[0] == '<' || text[0] == '{')
  }

  /**
   * `port` is what entry `i` of the section describes. An input is looked for first. A value in braces is an audio
   * flow, one in angle brackets a control flow, and any other value is a constant.
   */
  ghost predicate PortRead(flows: seq<Flow>, section: Section, i: nat, port: Port) {
    && (i in section.inputs || i in section.outputs)
    && (port.direction == Input <==> i in section.inputs)
    && var text := if i in section.inputs then section.inputs[i] else section.outputs[i];
       && text != ""
       && (port.kind == Audio <==> text[0] == '{')
       && (port.flow == NoFlow <==> text[0] != '{' && text[0] != '<')
       && (port.flow.InFlow? ==> port.flow.id < |flows| && flows[port.flow.id].name == text)
  }

  /** A section is read up to its first missing port number; an empty value among those is an error. */
  ghost predicate ReadTo(section: Section, n: nat) {
    && n <= 128
    && (forall i: nat :: i < n ==> EntryGiven(section, i))
    && (n < 128 ==> n !in section.inputs && n !in section.outputs)
  }

  ghost predicate EntryGiven(section: Section, i: nat) {
    if i in section.inputs then section.inputs[i] != "" else i in section.outputs && section.outputs[i] != ""
  }

  /** The section says where its plugin is, and none of its ports up to the first missing number is empty. */
  ghost predicate Readable(section: Section) {
    section.library.Some? && section.label_.Some? && exists n: nat :: ReadTo(section, n)
  }

  /** With an empty value at the first number after the given ones the section cannot be read. */
  lemma {:induction false} NotRead(section: Section, i: nat)
    requires i < 128 && HasPort(section, i) && !EntryGiven(section, i)
    requires forall k: nat :: k < i ==> EntryGiven(section, k)
    ensures forall n: nat :: !ReadTo(section, n)
  {
    forall n: nat
      ensures !ReadTo(section, n)
    {
      if n < i {
        assert EntryGiven(section, n);
      }
    }
  }

  ghost predicate NamesDistinct(flows: seq<Flow>) {
    && (forall f, h :: 0 <= f < h < |flows| ==> flows[f].name != flows[h].name)
    && (forall f :: 0 <= f < |flows| ==> NamesFlow(flows[f].name))
  }

  /** Flows before their ends are known. */
  ghost predicate OpenFlows(flows: seq<Flow>) {
    NamesDistinct(flows) && forall f :: 0 <= f < |flows| ==> flows[f].from == Nowhere && flows[f].to == Nowhere
  }

  ghost predicate PluginRead(flows: seq<Flow>, section: Section, plugin: Plugin) {
    && plugin.disabled == section.disabled
    && ReadTo(section, |plugin.ports|)
    && forall i: nat :: i < |plugin.ports| ==> PortRead(flows, section, i, plugin.ports[i])
  }

  // ----- which ports a flow joins -----

  predicate PortBefore(p: nat, j: nat, q: nat, k: nat) {
    p < q || (p == q && j < k)
  }

  /** `e` is the last port of flow `f` in this direction before port `j` of plugin `i`. */
  ghost predicate LatestEnd(plugins: seq<Plugin>, direction: Direction, f: nat, i: nat, j: nat, e: Endpoint) {
    && (e.At? ==>
          && InFlowAt(plugins, e.plugin, e.port, f) && plugins[e.plugin].ports[e.port].direction == direction
          && PortBefore(e.plugin, e.port, i, j))
    && forall p: nat, k: nat ::
         InFlowAt(plugins, p, k, f) && plugins[p].ports[k].direction == direction && PortBefore(p, k, i, j) ==>
         e.At? && !PortBefore(e.plugin, e.port, p, k)
  }

  ghost predicate FlowsFilled(plugins: seq<Plugin>, flows: seq<Flow>, i: nat, j: nat) {
    forall f: nat :: f < |flows| ==>
      && LatestEnd(plugins, Output, f, i, j, flows[f].from)
      && LatestEnd(plugins, Input, f, i, j, flows[f].to)
  }

  ghost predicate FlowsKnown(g: Graph) {
    forall p: nat, j: nat :: IsPort(g.plugins, p, j) && g.plugins[p].ports[j].flow.InFlow? ==>
      g.plugins[p].ports[j].flow.id < |g.flows|
  }

  /** The two ends of a flow carry the same kind of data. */
  ghost predicate KindsAgree(g: Graph) {
    forall p: nat, j: nat, q: nat, k: nat, f: nat :: InFlowAt(g.plugins, p, j, f) && InFlowAt(g.plugins, q, k, f) ==>
      g.plugins[p].ports[j].kind == g.plugins[q].ports[k].kind
  }

  ghost predicate AudioFlows(g: Graph) {
    forall p: nat, j: nat :: IsPort(g.plugins, p, j) && g.plugins[p].ports[j].kind == Audio ==>
      g.plugins[p].ports[j].flow.InFlow?
  }

  /** What the graph compiler relies on. */
  ghost predicate WellFormed(g: Graph) {
    && FlowsKnown(g) && KindsAgree(g) && AudioFlows(g)
    && FlowsFilled(g.plugins, g.flows, |g.plugins|, 0)
  }

  class Ini {
    var plugins: seq<Plugin>
    var flows: seq<Flow>

    constructor ()
      ensures plugins == [] && flows == []
    {
      plugins, flows := [], [];
    }

    function View(): Graph
      reads this
    {
      Graph(plugins, flows)
    }

    method LookupOrAddFlow(name: string) returns (f: nat)
      requires NamesDistinct(flows) && NamesFlow(name)
      modifies `flows
      ensures NamesDistinct(flows) && f < |flows| && flows[f].name == name
      ensures flows == if exists h :: 0 <= h < |old(flows)| && old(flows)[h].name == name then old(flows)
                       else old(flows) + [Flow(name, Nowhere, Nowhere)]
    {
      f := 0;
      while f < |flows|
        modifies {}
        invariant f <= |flows|
        invariant forall h :: 0 <= h < f ==> flows[h].name != name
      {
        if flows[f].name == name {
          return;
        }
        f := f + 1;
      }
      flows := flows + [Flow(name, Nowhere, Nowhere)];
    }

    /** Port `i` of a section; a port whose value names a flow joins it. */
    method ParsePort(section: Section, i: nat) returns (port: Port)
      requires OpenFlows(flows) && HasPort(section, i) && PortText(section, i) != ""
      modifies `flows
      ensures OpenFlows(flows) && old(flows) <= flows && PortRead(flows, section, i, port)
    {
      var direction := if i in section.inputs then Input else Output;
      var text := PortText(section, i);
      if text[0] == '<' || text[0] == '{' {
        var f := LookupOrAddFlow(text);
        port := Port(direction, if text[0] == '<' then Control else Audio, InFlow(f));
      } else {
        port := Port(direction, Control, NoFlow);
      }
    }

    /** The ports of a section, up to the first missing number; an empty value is an error. */
    method ParsePorts(section: Section) returns (ok: bool, ports: seq<Port>)
      requires OpenFlows(flows)
      modifies `flows
      ensures OpenFlows(flows) && old(flows) <= flows
      ensures if ok then ReadTo(section, |ports|) else forall n: nat :: !ReadTo(section, n)
      ensures ok ==> forall k: nat :: k < |ports| ==> PortRead(flows, section, k, ports[k])
    {
      hide PortRead, OpenFlows;
      ports := [];
      var i := 0;
      while i < MAX_NR_PORT && HasPort(section, i)
        invariant i <= MAX_NR_PORT && |ports| == i && OpenFlows(flows) && old(flows) <= flows
        invariant forall k: nat :: k < i ==> PortRead(flows, section, k, ports[k])
        invariant forall k: nat :: k < i ==> EntryGiven(section, k)
      {
        if PortText(section, i) == "" {
          assert !EntryGiven(section, i);
          NotRead(section, i);
          return false, ports;
        }
        ghost var before := flows;
        var port := ParsePort(section, i);
        forall k: nat | k < i
          ensures PortRead(flows, section, k, ports[k])
        {
          PortStaysRead(before, flows, section, k, ports[k]);
        }
        ports := ports + [port];
        i := i + 1;
      }
      ok := true;
    }

    /**
     * Appends a plugin with the ports of the section; ports get the same flow exactly when their values are the same.
     */
    method ParsePluginSection(section: Section) returns (ok: bool)
      requires OpenFlows(flows)
      modifies this
      ensures OpenFlows(flows) && old(flows) <= flows
      ensures ok <==> Readable(section)
      ensures ok ==> |plugins| == |old(plugins)| + 1 && plugins[..|old(plugins)|] == old(plugins)
      ensures ok ==> PluginRead(flows, section, plugins[|old(plugins)|])
    {
      hide PortRead, OpenFlows, ReadTo;
      if section.library.None? || section.label_.None? {
        return false;
      }
      var ports;
      ok, ports := ParsePorts(section);
      if ok {
        plugins := plugins + [Plugin(ports, section.disabled)];
      }
    }

    /** Every flow learns the last output and the last input port that name it. */
    method FillFlowInfo()
      requires FlowsKnown(View())
      requires forall f :: 0 <= f < |flows| ==> flows[f].from == Nowhere && flows[f].to == Nowhere
      modifies `flows
      ensures SameNames(flows, old(flows)) && FlowsFilled(plugins, flows, |plugins|, 0)
    {
      NothingFilled(plugins, flows);
      hide FlowsFilled;
      for i := 0 to |plugins|
        invariant SameNames(flows, old(flows)) && FlowsFilled(plugins, flows, i, 0)
      {
        for j := 0 to |plugins[i].ports|
          invariant SameNames(flows, old(flows)) && FlowsFilled(plugins, flows, i, j)
        {
          var port := plugins[i].ports[j];
          assert IsPort(plugins, i, j);
          NextPort(plugins, flows, i, j);
          if port.flow.InFlow? {
            var id := port.flow.id;
            flows := flows[id := if port.direction == Input then flows[id].(to := At(i, j))
                                 else flows[id].(from := At(i, j))];
          }
        }
        NextPlugin(plugins, flows, i);
      }
    }
  }

  ghost predicate SameNames(a: seq<Flow>, b: seq<Flow>) {
    |a| == |b| && forall f :: 0 <= f < |a| ==> a[f].name == b[f].name
  }

  lemma {:induction false} NothingFilled(plugins: seq<Plugin>, flows: seq<Flow>)
    requires forall f :: 0 <= f < |flows| ==> flows[f].from == Nowhere && flows[f].to == Nowhere
    ensures FlowsFilled(plugins, flows, 0, 0)
  {
  }

  /** The flows once port `j` of plugin `i` is entered as an end of its flow. */
  function WithEnd(plugins: seq<Plugin>, flows: seq<Flow>, i: nat, j: nat): seq<Flow>
    requires IsPort(plugins, i, j) && (plugins[i].ports[j].flow.InFlow? ==> plugins[i].ports[j].flow.id < |flows|)
  {
    var port := plugins[i].ports[j];
    if port.flow.NoFlow? then flows
    else
      var flow := flows[port.flow.id];
      flows[port.flow.id := if port.direction == Input then flow.(to := At(i, j)) else flow.(from := At(i, j))]
  }

  lemma {:induction false} NextPort(plugins: seq<Plugin>, flows: seq<Flow>, i: nat, j: nat)
    requires IsPort(plugins, i, j) && (plugins[i].ports[j].flow.InFlow? ==> plugins[i].ports[j].flow.id < |flows|)
    requires FlowsFilled(plugins, flows, i, j)
    ensures SameNames(WithEnd(plugins, flows, i, j), flows)
            && FlowsFilled(plugins, WithEnd(plugins, flows, i, j), i, j + 1)
  {
    hide LatestEnd;
    var after := WithEnd(plugins, flows, i, j);
    forall f: nat | f < |flows|
      ensures LatestEnd(plugins, Output, f, i, j + 1, after[f].from)
      ensures LatestEnd(plugins, Input, f, i, j + 1, after[f].to)
    {
      NextEnd(plugins, Output, f, i, j, flows[f].from);
      NextEnd(plugins, Input, f, i, j, flows[f].to);
    }
  }

  lemma {:induction false} NextPlugin(plugins: seq<Plugin>, flows: seq<Flow>, i: nat)
    requires i < |plugins| && FlowsFilled(plugins, flows, i, |plugins[i].ports|)
    ensures FlowsFilled(plugins, flows, i + 1, 0)
  {
    hide LatestEnd;
    forall f: nat | f < |flows|
      ensures LatestEnd(plugins, Output, f, i + 1, 0, flows[f].from)
      ensures LatestEnd(plugins, Input, f, i + 1, 0, flows[f].to)
    {
      NextPluginEnd(plugins, Output, f, i, flows[f].from);
      NextPluginEnd(plugins, Input, f, i, flows[f].to);
    }
  }

  lemma {:induction false} NextEnd(plugins: seq<Plugin>, direction: Direction, f: nat, i: nat, j: nat, e: Endpoint)
    requires IsPort(plugins, i, j) && LatestEnd(plugins, direction, f, i, j, e)
    ensures var port := plugins[i].ports[j];
            LatestEnd(plugins, direction, f, i, j + 1,
                      if port.flow == InFlow(f) && port.direction == direction then At(i, j) else e)
  {
    var port := plugins[i].ports[j];
    var e' := if port.flow == InFlow(f) && port.direction == direction then At(i, j) else e;
    forall p: nat, k: nat | InFlowAt(plugins, p, k, f) && plugins[p].ports[k].direction == direction
      && PortBefore(p, k, i, j + 1)
      ensures e'.At? && !PortBefore(e'.plugin, e'.port, p, k)
    {
      assert PortBefore(p, k, i, j) || (p == i && k == j);
    }
  }

  lemma {:induction false} NextPluginEnd(plugins: seq<Plugin>, direction: Direction, f: nat, i: nat, e: Endpoint)
    requires i < |plugins| && LatestEnd(plugins, direction, f, i, |plugins[i].ports|, e)
    ensures LatestEnd(plugins, direction, f, i + 1, 0, e)
  {
    assert forall p: nat, k: nat :: IsPort(plugins, p, k) ==>
             (PortBefore(p, k, i + 1, 0) <==> PortBefore(p, k, i, |plugins[i].ports|));
  }

  lemma {:induction false} PortStaysRead(a: seq<Flow>, b: seq<Flow>, section: Section, i: nat, port: Port)
    requires PortRead(a, section, i, port)
    requires |a| <= |b| && forall f :: 0 <= f < |a| ==> a[f].name == b[f].name
    ensures PortRead(b, section, i, port)
  {
  }

  lemma {:induction false} PluginStaysRead(a: seq<Flow>, b: seq<Flow>, section: Section, plugin: Plugin)
    requires PluginRead(a, section, plugin)
    requires |a| <= |b| && forall f :: 0 <= f < |a| ==> a[f].name == b[f].name
    ensures PluginRead(b, section, plugin)
  {
    forall i: nat | i < |plugin.ports|
      ensures PortRead(b, section, i, plugin.ports[i])
    {
      assert PortRead(a, section, i, plugin.ports[i]);
    }
  }

  /** The name of a flow starts with the mark of its kind, so all its ports are of that kind. */
  lemma {:induction false} ReadIsWellFormed(sections: seq<Section>, g: Graph)
    requires |g.plugins| == |sections| && NamesDistinct(g.flows)
    requires forall i :: 0 <= i < |sections| ==> PluginRead(g.flows, sections[i], g.plugins[i])
    ensures FlowsKnown(g) && KindsAgree(g) && AudioFlows(g)
  {
    forall p: nat, j: nat | IsPort(g.plugins, p, j)
      ensures PortRead(g.flows, sections[p], j, g.plugins[p].ports[j])
    {
      assert PluginRead(g.flows, sections[p], g.plugins[p]);
    }
  }

  /** Two ports are joined exactly when their values are equal and name a flow. */
  lemma {:induction false} JoinedIffNamedAlike(sections: seq<Section>, g: Graph, p: nat, j: nat, q: nat, k: nat)
    requires |g.plugins| == |sections| && NamesDistinct(g.flows)
    requires forall i :: 0 <= i < |sections| ==> PluginRead(g.flows, sections[i], g.plugins[i])
    requires IsPort(g.plugins, p, j) && IsPort(g.plugins, q, k)
    ensures HasPort(sections[p], j) && HasPort(sections[q], k)
    ensures (exists f: nat :: InFlowAt(g.plugins, p, j, f) && InFlowAt(g.plugins, q, k, f)) <==>
              var text := PortText(sections[p], j);
              text != "" && (text[0] == '{' || text[0] == '<') && text == PortText(sections[q], k)
  {
    assert PluginRead(g.flows, sections[p], g.plugins[p]) && PluginRead(g.flows, sections[q], g.plugins[q]);
    assert PortRead(g.flows, sections[p], j, g.plugins[p].ports[j])
           && PortRead(g.flows, sections[q], k, g.plugins[q].ports[k]);
    if NamesFlow(PortText(sections[p], j)) && PortText(sections[p], j) == PortText(sections[q], k) {
      var f := g.plugins[p].ports[j].flow.id;
      assert InFlowAt(g.plugins, p, j, f) && InFlowAt(g.plugins, q, k, f);
    }
  }

  method CreateIni(sections: seq<Section>) returns (ini: Ini, ok: bool)
    ensures ok <==> forall i :: 0 <= i < |sections| ==> Readable(sections[i])
    ensures ok ==> NamesDistinct(ini.flows) && WellFormed(ini.View()) && |ini.plugins| == |sections|
    ensures ok ==> forall i :: 0 <= i < |sections| ==> PluginRead(ini.flows, sections[i], ini.plugins[i])
  {
    ini := new Ini();
    for i := 0 to |sections|
      modifies ini
      invariant |ini.plugins| == i
      invariant OpenFlows(ini.flows)
      invariant forall k :: 0 <= k < i ==> PluginRead(ini.flows, sections[k], ini.plugins[k])
      invariant forall k :: 0 <= k < i ==> Readable(sections[k])
    {
      ghost var flows, plugins := ini.flows, ini.plugins;
      ok := ini.ParsePluginSection(sections[i]);
      if !ok {
        return ini, false;
      }
      forall k | 0 <= k < i
        ensures PluginRead(ini.flows, sections[k], ini.plugins[k])
      {
        assert ini.plugins[k] == ini.plugins[..i][k];
        PluginStaysRead(flows, ini.flows, sections[k], plugins[k]);
      }
    }
    ReadIsWellFormed(sections, ini.View());
    ghost var flows := ini.flows;
    ini.FillFlowInfo();
    forall k | 0 <= k < |sections|
      ensures PluginRead(ini.flows, sections[k], ini.plugins[k])
    {
      PluginStaysRead(flows, ini.flows, sections[k], ini.plugins[k]);
    }
    ReadIsWellFormed(sections, ini.View());
    ok := true;
  }
}
