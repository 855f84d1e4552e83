/** From the entries of a DSP file to the sound at the sink. */
module DspFile {
  import opened Options
  import opened DspIni
  import opened DspTrails
  import opened DspPipeline
  import opened DspPlay
  import Text = ExprText
  import Conditions = ExprEval

  /** The entries of one section of the file. */
  datatype FileSection = FileSection(
    library: Option<string>,
    label_: Option<string>,
    purpose: Option<string>,
    disable: Option<string>,
    inputs: map<nat, string>,
    outputs: map<nat, string>)

  function Entries(section: FileSection, disabled: bool): (read: Section)
    ensures read.library == section.library && read.label_ == section.label_ && read.disabled == disabled
    ensures read.inputs == section.inputs && read.outputs == section.outputs
  {
    Section(section.library, section.label_, section.inputs, section.outputs, disabled)
  }

  /** The condition of the section can be read and is true. */
  predicate LeftOut(section: FileSection, env: Conditions.Bindings) {
    match section.disable
    case None => false
    case Some(text) => Text.Parse(text).0.Some? && Conditions.Eval(Text.Parse(text).0.value, env) == Text.Boolean(true)
  }

  function RoleOf(section: FileSection, purpose: string): Role {
    if section.library != Some("builtin") || section.purpose != Some(purpose) then Effect
    else if section.label_ == Some("source") then Source
    else if section.label_ == Some("sink") then Sink
    else Effect
  }

  function Roles(file: seq<FileSection>, purpose: string): (roles: seq<Role>)
    ensures |roles| == |file|
  {
    seq(|file|, i requires 0 <= i < |file| => RoleOf(file[i], purpose))
  }

  /** The plugin has the ports of its section, and is disabled exactly when the condition can be read and is true. */
  ghost predicate SectionRead(section: FileSection, env: Conditions.Bindings, flows: seq<Flow>, plugin: Plugin) {
    && (plugin.disabled <==>
          && section.disable.Some? && Text.Parse(section.disable.value).0.Some?
          && Conditions.Eval(Text.Parse(section.disable.value).0.value, env) == Text.Boolean(true))
    && PluginRead(flows, Entries(section, plugin.disabled), plugin)
  }

  /** `g` is what the file describes; only the numbers of the flows are left open. */
  ghost predicate Describes(file: seq<FileSection>, env: Conditions.Bindings, g: Graph) {
    && |g.plugins| == |file| && NamesDistinct(g.flows) && WellFormed(g)
    && forall i :: 0 <= i < |file| ==> SectionRead(file[i], env, g.flows, g.plugins[i])
  }

  /** What the caller has to see to: audio flows have one reader, no data goes in a circle, channels come first. */
  ghost predicate Playable(g: Graph, roles: seq<Role>)
    requires |roles| == |g.plugins|
  {
    OneWay(g, roles) && SingleConsumer(g) && ChannelsNumbered(g, roles)
  }

  lemma {:induction false} SameEntries(a: Section, b: Section)
    requires a.library == b.library && a.label_ == b.label_ && a.inputs == b.inputs && a.outputs == b.outputs
    ensures Readable(a) <==> Readable(b)
  {
    assert forall i: nat :: EntryGiven(a, i) <==> EntryGiven(b, i);
    assert forall n: nat :: ReadTo(a, n) <==> ReadTo(b, n);
  }

  /** Reads the sections and evaluates their conditions. */
  method ReadFile(file: seq<FileSection>, env: Conditions.Env) returns (ok: bool, g: Graph)
    requires env.Valid()
    ensures ok <==> forall i :: 0 <= i < |file| ==> Readable(Entries(file[i], false))
    ensures ok ==> Describes(file, env.View(), g)
  {
    var sections: seq<Section> := [];
    for i := 0 to |file|
      invariant |sections| == i
      invariant forall k :: 0 <= k < i ==> sections[k] == Entries(file[k], LeftOut(file[k], env.View()))
    {
      var disabled := false;
      if file[i].disable.Some? {
        disabled := env.IsDisabled(file[i].disable.value);
      }
      sections := sections + [Entries(file[i], disabled)];
    }
    forall i | 0 <= i < |file|
      ensures Readable(sections[i]) <==> Readable(Entries(file[i], false))
    {
      SameEntries(sections[i], Entries(file[i], false));
    }
    hide Readable, PluginRead, WellFormed, Entries;
    var ini;
    ini, ok := CreateIni(sections);
    g := Graph(ini.plugins, ini.flows);
  }

  /** Section `i` is the only one that is a built-in of this label for the purpose and is not left out. */
  ghost predicate SoleBuiltin(file: seq<FileSection>, g: Graph, label_: string, purpose: string, i: nat) {
    && i < |file| == |g.plugins|
    && forall k :: 0 <= k < |file| ==>
         (k == i <==> file[k].library == Some("builtin") && file[k].label_ == Some(label_)
                      && file[k].purpose == Some(purpose) && !g.plugins[k].disabled)
  }

  /** Which sections are for what. */
  lemma {:induction false} RolesSay(section: FileSection, purpose: string)
    ensures RoleOf(section, purpose) == Source <==>
              section.library == Some("builtin") && section.label_ == Some("source") && section.purpose == Some(purpose)
    ensures RoleOf(section, purpose) == Sink <==>
              section.library == Some("builtin") && section.label_ == Some("sink") && section.purpose == Some(purpose)
  {
    assert "source"[1] != "sink"[1];
  }

  lemma {:induction false} EndsAreBuiltin(file: seq<FileSection>, g: Graph, purpose: string, source: nat, sink: nat)
    requires |g.plugins| == |file| && CanCreate(g, Roles(file, purpose), source, sink)
    ensures SoleBuiltin(file, g, "source", purpose, source) && SoleBuiltin(file, g, "sink", purpose, sink)
  {
    var roles := Roles(file, purpose);
    assert Sole(g, roles, Source, source) && Sole(g, roles, Sink, sink);
    hide RoleOf, Channels;
    forall k: nat | k < |file|
      ensures roles[k] == RoleOf(file[k], purpose)
      ensures IsEnabled(g, roles, Source, k) ==> k == source
      ensures IsEnabled(g, roles, Sink, k) ==> k == sink
    {
    }
    forall k: nat | k < |file|
    {
      RolesSay(file[k], purpose);
    }
  }

  // ----- the conditions in the file of the speakers -----

  /** `(not (equal? dsp_name "..."))` with a name in quotes. */
  function NameIsNot(name: string): Text.Expr {
    Text.Compound([Text.Variable("not"), NameIs(name)])
  }

  function NameIs(name: string): Text.Expr {
    Text.Compound([Text.Variable("equal?"), Text.Variable("dsp_name"), Text.Literal(Text.String(name))])
  }

  /** A section with such a condition is left out exactly when another DSP is asked for by name. */
  lemma {:induction false} SpeakerCondition(section: FileSection, env: Conditions.Bindings, name: string)
    requires '"' !in name && 0 as char !in name
    requires section.disable == Some("(not (equal? dsp_name \"" + name + "\"))")
    requires Conditions.HasBuiltins(env) && "dsp_name" in env
    ensures LeftOut(section, env) <==> env["dsp_name"] != Text.String(name)
  {
    NamesAreNames(name);
    NamePrinted(name);
    NameIsNotValue(name, env);
    hide Text.Parse, Conditions.Eval, Text.Print, Text.WellFormed, NameIsNot;
    Text.ParsePrinted(NameIsNot(name), "");
    assert section.disable.value + "" == section.disable.value;
  }

  lemma {:induction false} NameIsNotValue(name: string, env: Conditions.Bindings)
    requires Conditions.HasBuiltins(env) && "dsp_name" in env
    ensures Conditions.Eval(NameIsNot(name), env) == Text.Boolean(env["dsp_name"] != Text.String(name))
  {
    Conditions.EvalSays(Text.String(name), "dsp_name", [], env);
    hide Conditions.Eval;
    Conditions.EvalEqual(Text.Variable("dsp_name"), Text.Literal(Text.String(name)), env);
    Conditions.EvalNot(NameIs(name), env);
  }

  lemma {:induction false} NamesAreNames(name: string)
    requires '"' !in name && 0 as char !in name
    ensures Text.WellFormed(NameIsNot(name))
  {
    assert Text.WellFormed(Text.Variable("not")) && Text.WellFormed(Text.Variable("equal?"));
    assert Text.WellFormed(Text.Variable("dsp_name")) && Text.WellFormed(Text.Literal(Text.String(name)));
    assert Text.WellFormed(NameIs(name));
  }

  lemma {:induction false} SamePrinted(name: string)
    ensures Text.Print(NameIs(name)) == "(equal? dsp_name \"" + name + "\")"
  {
    var v, l := Text.Variable("dsp_name"), Text.Literal(Text.String(name));
    PrintedPair(v, l);
    PrintedMore(Text.Variable("equal?"), [v, l]);
    assert [Text.Variable("equal?")] + [v, l] == [Text.Variable("equal?"), v, l];
    hide Text.PrintAll;
  }

  lemma {:induction false} NamePrinted(name: string)
    ensures Text.Print(NameIsNot(name)) == "(not (equal? dsp_name \"" + name + "\"))"
  {
    SamePrinted(name);
    PrintedPair(Text.Variable("not"), NameIs(name));
    assert Text.Print(Text.Variable("not")) == "not";
    hide Text.PrintAll, NameIs;
  }

  lemma {:induction false} PrintedMore(e: Text.Expr, es: seq<Text.Expr>)
    requires es != []
    ensures Text.PrintAll([e] + es) == Text.Print(e) + " " + Text.PrintAll(es)
  {
    assert ([e] + es)[1..] == es;
  }

  lemma {:induction false} PrintedPair(d: Text.Expr, e: Text.Expr)
    ensures Text.PrintAll([d, e]) == Text.Print(d) + " " + Text.Print(e)
  {
    PrintedMore(d, [e]);
    assert [d] + [e] == [d, e];
  }

  lemma {:induction false} DescribedIsPlayable(file: seq<FileSection>, env: Conditions.Bindings, g: Graph,
                                               roles: seq<Role>)
    requires Describes(file, env, g) && |roles| == |file| && Playable(g, roles)
    ensures WellFormed(g) && |g.plugins| == |file| && OneWay(g, roles) && SingleConsumer(g)
            && ChannelsNumbered(g, roles)
  {
    hide WellFormed, OneWay, SingleConsumer, ChannelsNumbered;
  }

  /**
   * Reads a file, makes the pipeline for a purpose and plays one chunk through it. A
   * plugin is left out exactly when its condition is true. When no other plugin than
   * the source starts a flow, the sink hears what the sections of the file say.
   */
  method PlayFile<B>(file: seq<FileSection>, env: Conditions.Env, purpose: string, modules: seq<Module>,
                     external: nat -> B, module_: (nat, nat, seq<B>) -> B, blank: B)
    returns (ok: bool, g: Graph, ends: Ends, heard: Option<seq<B>>, ghost source: nat, ghost sink: nat)
    requires env.Valid() && |modules| == |file|
    requires forall g' :: Describes(file, env.View(), g') ==> Playable(g', Roles(file, purpose))
    ensures ok <==> forall i :: 0 <= i < |file| ==> Readable(Entries(file[i], false))
    ensures ok ==> Describes(file, env.View(), g)
    ensures ok ==> (ends.Ends? <==> exists i: nat, k: nat :: CanCreate(g, Roles(file, purpose), i, k))
    ensures ok && ends.Ends? ==> CanCreate(g, Roles(file, purpose), source, sink)
    ensures ok && ends.Ends? ==>
              SoleBuiltin(file, g, "source", purpose, source) && SoleBuiltin(file, g, "sink", purpose, sink)
    ensures ok ==> (heard.Some? <==> ends.Ends? && forall q: nat :: Plays(g, sink, q) ==> modules[q].Module?)
    ensures ok && heard.Some? && StartsAt(g, sink, source) ==>
              HeardRight(g, sink, Play(source, external, module_), heard.value)
  {
    hide Describes, Playable, WellFormed, OneWay, SingleConsumer, ChannelsNumbered, CanCreate, Plays, StartsAt,
         HeardRight, Readable;
    ok, g := ReadFile(file, env);
    ends, heard, source, sink := NoPipeline, None, 0, 0;
    if ok {
      DescribedIsPlayable(file, env.View(), g, Roles(file, purpose));
      ends, heard, source, sink := PlayGraph(g, Roles(file, purpose), modules, external, module_, blank);
      if ends.Ends? {
        EndsAreBuiltin(file, g, purpose, source, sink);
      }
    }
  }
}
