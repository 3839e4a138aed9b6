/** Loading a pipeline definition: the decoded configuration, the video settings it selects and
    the graph builder that constructs every node in dependency order (src/load.rs). */
module Load {

  import opened Util
  import opened Node
  import Options
  import opened Video
  import Graph
  import opened Pipeline

  /** The `inputs` entry of a node: one name or a list of names. */
  datatype Inputs = One(name: string) | Many(names: seq<string>)

  /** A node declared without `inputs` has none. */
  const DefaultInputs: Inputs := Many([])

  /** The input names of an entry, in the order written. */
  function AsSlice(inputs: Inputs): (r: seq<string>)
    ensures inputs.One? ==> r == [inputs.name]
    ensures inputs.Many? ==> r == inputs.names
    ensures inputs == DefaultInputs ==> r == []
  {
    match inputs
    case One(name) => [name]
    case Many(names) => names
  }

  /** The optional `video` section; every field is optional. */
  datatype VideoSection = VideoSection(width: Option<nat>, height: Option<nat>, fps: Option<nat>)

  /** One declared node: its type name, its inputs and its optional option block. */
  datatype NodeDef = NodeDef(nodeType: string, inputs: Inputs, options: Option<seq<(Options.Yaml, Options.Yaml)>>)

  /** A decoded pipeline file: the video section and the declared nodes by name. */
  datatype PipelineConfig = PipelineConfig(video: Option<VideoSection>, pipeline: map<string, NodeDef>)

  /** A present field, or the default. */
  function Override(field: Option<nat>, default: nat): nat
  {
    if field.Some? then field.value else default
  }

  /** The video settings a configuration selects: the default without a section, and otherwise
      the default with each present field replaced, where a field out of range or odd aborts the
      builder's assertion. */
  function VideoConfigFor(video: Option<VideoSection>): (o: Outcome<VideoConfig>)
    ensures video.None? ==> o == Done(Ok(DefaultVideoConfig))
    ensures o.Done? ==> o.result.Ok? && ValidConfig(o.result.value)
    ensures video.Some? ==>
              (o.Panic? <==> (video.value.width.Some? && !ValidWidth(video.value.width.value))
                             || (video.value.height.Some? && !ValidHeight(video.value.height.value))
                             || (video.value.fps.Some? && !ValidFps(video.value.fps.value)))
    ensures video.Some? && o.Done? ==>
              && o.result.value.width == Override(video.value.width, DefaultVideoConfig.width)
              && o.result.value.height == Override(video.value.height, DefaultVideoConfig.height)
              && o.result.value.fps == Override(video.value.fps, DefaultVideoConfig.fps)
  {
    match video
    case None => Done(Ok(DefaultVideoConfig))
    case Some(v) =>
      if v.width.Some? && !ValidWidth(v.width.value) then Panic("invalid width")
      else if v.height.Some? && !ValidHeight(v.height.value) then Panic("invalid height")
      else if v.fps.Some? && !ValidFps(v.fps.value) then Panic("invalid fps")
      else
        Done(Ok(VideoConfig(Override(v.width, DefaultVideoConfig.width),
                            Override(v.height, DefaultVideoConfig.height),
                            Override(v.fps, DefaultVideoConfig.fps))))
  }

  /** `video_config`: the builder chain, setting each present field in turn. */
  method VideoConfigOf(video: Option<VideoSection>) returns (o: Outcome<VideoConfig>)
    ensures o == VideoConfigFor(video)
  {
    match video {
      case None =>
        return Done(Ok(DefaultVideoConfig));
      case Some(v) =>
        var builder := new VideoConfigBuilder();
        if v.width.Some? {
          if !ValidWidth(v.width.value) {
            return Panic("invalid width");
          }
          builder.Width(v.width.value);
        }
        if v.height.Some? {
          if !ValidHeight(v.height.value) {
            return Panic("invalid height");
          }
          builder.Height(v.height.value);
        }
        if v.fps.Some? {
          if !ValidFps(v.fps.value) {
            return Panic("invalid fps");
          }
          builder.Fps(v.fps.value);
        }
        return Done(Ok(builder.Build()));
    }
  }

  /** The dependency graph: each declared node with its input names. */
  function EdgesOf(pipeline: map<string, NodeDef>): (g: Graph.Edges)
    ensures g.Keys == pipeline.Keys
    ensures forall n | n in g :: g[n] == AsSlice(pipeline[n].inputs)
  {
    map n | n in pipeline :: AsSlice(pipeline[n].inputs)
  }

  /** Whether the node declared as `name` has a registered type whose constructor builds a sink. */
  predicate IsSinkNode(ctors: map<string, Kind>, pipeline: map<string, NodeDef>, name: string)
    requires name in pipeline
  {
    var t := pipeline[name].nodeType;
    t in ctors && IsSink(ctors[t])
  }

  /** Every node listed in `order` has a registered type. */
  predicate AllKnown(ctors: map<string, Kind>, pipeline: map<string, NodeDef>, order: seq<string>)
    requires forall i | 0 <= i < |order| :: order[i] in pipeline
  {
    forall i | 0 <= i < |order| :: pipeline[order[i]].nodeType in ctors
  }

  /** `order[i]` is the first node in `order` whose type is not registered. */
  predicate FirstUnknown(ctors: map<string, Kind>, pipeline: map<string, NodeDef>, order: seq<string>, i: nat)
    requires forall j | 0 <= j < |order| :: order[j] in pipeline
  {
    && i < |order| && pipeline[order[i]].nodeType !in ctors
    && forall j | 0 <= j < i :: pipeline[order[j]].nodeType in ctors
  }

  /** The sink-typed nodes of `order`, in that order. */
  function SinkNames(ctors: map<string, Kind>, pipeline: map<string, NodeDef>, order: seq<string>): seq<string>
    requires forall i | 0 <= i < |order| :: order[i] in pipeline
    decreases |order|
  {
    if order == [] then []
    else
      var last := order[|order| - 1];
      SinkNames(ctors, pipeline, order[..|order| - 1]) + (if IsSinkNode(ctors, pipeline, last) then [last] else [])
  }

  /** A name is among the sink names exactly when it is listed and sink-typed. */
  lemma {:induction false} SinkNamesExact(ctors: map<string, Kind>, pipeline: map<string, NodeDef>,
                                          order: seq<string>, x: string)
    requires forall i | 0 <= i < |order| :: order[i] in pipeline
    ensures x in SinkNames(ctors, pipeline, order) <==> x in order && IsSinkNode(ctors, pipeline, x)
    decreases |order|
  {
    if order != [] {
      var init := order[..|order| - 1];
      SinkNamesExact(ctors, pipeline, init, x);
      assert order == init + [order[|order| - 1]];
    }
  }

  /** Listing distinct names yields each sink name once. */
  lemma {:induction false} SinkNamesDistinct(ctors: map<string, Kind>, pipeline: map<string, NodeDef>,
                                             order: seq<string>)
    requires forall i | 0 <= i < |order| :: order[i] in pipeline
    requires Graph.Distinct(order)
    ensures Graph.Distinct(SinkNames(ctors, pipeline, order))
    decreases |order|
  {
    if order != [] {
      var init := order[..|order| - 1];
      var last := order[|order| - 1];
      SinkNamesDistinct(ctors, pipeline, init);
      SinkNamesExact(ctors, pipeline, init, last);
      assert last !in init;
    }
  }

  /** The first pass over the declared nodes: every type must be registered, and the sink-typed
      names are collected in iteration order. */
  method CollectSinks(factory: NodeFactory, pipeline: map<string, NodeDef>, order: seq<string>)
    returns (r: Result<seq<string>>)
    requires forall i | 0 <= i < |order| :: order[i] in pipeline
    ensures r.Ok? <==> AllKnown(factory.constructors, pipeline, order)
    ensures r.Ok? ==> r.value == SinkNames(factory.constructors, pipeline, order)
    ensures r.Err? ==> exists i | 0 <= i < |order| ::
                         FirstUnknown(factory.constructors, pipeline, order, i)
                         && r.error == UnknownNode(pipeline[order[i]].nodeType)
  {
    var sinks: seq<string> := [];
    var i := 0;
    while i < |order|
      invariant 0 <= i <= |order|
      invariant forall j | 0 <= j < i :: pipeline[order[j]].nodeType in factory.constructors
      invariant sinks == SinkNames(factory.constructors, pipeline, order[..i])
    {
      var name := order[i];
      var t := pipeline[name].nodeType;
      match factory.Get(t) {
        case None =>
          assert FirstUnknown(factory.constructors, pipeline, order, i);
          return Err(UnknownNode(t));
        case Some(k) =>
          if IsSink(k) {
            sinks := sinks + [name];
          }
      }
      assert order[..i + 1][..i] == order[..i];
      i := i + 1;
    }
    assert order[..|order|] == order;
    return Ok(sinks);
  }

  /** Looks every input name up among the constructed nodes; a name not yet constructed is an
      unknown input. */
  function ResolveInputs(nodes: map<string, NodeRef>, names: seq<string>): (r: Result<seq<NodeRef>>)
    ensures r.Ok? <==> forall n | n in names :: n in nodes
    ensures r.Err? ==> r.error == InvalidPipeline(UnknownInput)
    ensures r.Ok? ==> |r.value| == |names| && forall i | 0 <= i < |names| :: r.value[i] == nodes[names[i]]
  {
    if names == [] then Ok([])
    else if names[0] !in nodes then Err(InvalidPipeline(UnknownInput))
    else
      var rest := ResolveInputs(nodes, names[1..]);
      assert forall i | 1 <= i < |names| :: names[i] == names[1..][i - 1];
      if rest.Err? then
        assert forall n | n in names[1..] :: n in names;
        Err(rest.error)
      else Ok([nodes[names[0]]] + rest.value)
  }

  /** A missing option block counts as an empty mapping. */
  function OptionsBlock(d: NodeDef): (entries: seq<(Options.Yaml, Options.Yaml)>)
    ensures d.options.None? ==> entries == []
    ensures d.options.Some? ==> entries == d.options.value
  {
    if d.options.Some? then d.options.value else []
  }

  /** What the factory makes of a type name: an unknown name is reported, a known one built. */
  function ConstructWith(ctors: map<string, Kind>, t: string, name: string, inputs: seq<NodeRef>,
                         options: Options.Options, config: VideoConfig, platform: Platform): Outcome<NodeRef>
  {
    if t in ctors then Construct(ctors[t], name, inputs, options, config, platform)
    else Done(Err(UnknownNode(t)))
  }

  /** Each node of `sorted` takes its inputs from `known` or from the nodes listed before it. */
  ghost predicate InputsBefore(pipeline: map<string, NodeDef>, sorted: seq<string>, known: set<string>)
  {
    forall k | 0 <= k < |sorted| ::
      sorted[k] in pipeline
      && forall n | n in AsSlice(pipeline[sorted[k]].inputs) :: n in known || n in sorted[..k]
  }

  /** Dropping the first node of `sorted` once it is known keeps the inputs available. */
  lemma InputsBeforeStep(pipeline: map<string, NodeDef>, sorted: seq<string>, known: set<string>)
    requires sorted != [] && InputsBefore(pipeline, sorted, known)
    ensures InputsBefore(pipeline, sorted[1..], known + {sorted[0]})
  {
    forall k | 0 <= k < |sorted| - 1
      ensures forall n | n in AsSlice(pipeline[sorted[1..][k]].inputs) ::
                n in known + {sorted[0]} || n in sorted[1..][..k]
    {
      assert sorted[1..][k] == sorted[k + 1];
      assert sorted[..k + 1] == [sorted[0]] + sorted[1..][..k];
    }
  }

  /** The outcome of constructing the node declared as `name` from the nodes built so far: its
      inputs are looked up, its option block must decode, and the factory builds it. A built
      node is the handle named `name`, a sink exactly when its type builds one; with a
      registered type, a failure is an input, option or system error. */
  function BuildOne(ctors: map<string, Kind>, pipeline: map<string, NodeDef>, config: VideoConfig,
                    platform: Platform, name: string, nodes: map<string, NodeRef>): (o: Outcome<NodeRef>)
    requires name in pipeline && forall n | n in AsSlice(pipeline[name].inputs) :: n in nodes
    ensures o.Done? && o.result.Ok? ==>
              o.result.value.name == name && (o.result.value.sink <==> IsSinkNode(ctors, pipeline, name))
    ensures o.Done? && o.result.Err? && pipeline[name].nodeType in ctors ==>
              o.result.error in {InvalidInputs, InvalidOptions, System}
    ensures pipeline[name].nodeType !in ctors && Options.FromYaml(OptionsBlock(pipeline[name])).Ok? ==>
              o == Done(Err(UnknownNode(pipeline[name].nodeType)))
  {
    var d := pipeline[name];
    var inputs := ResolveInputs(nodes, AsSlice(d.inputs)).value;
    match Options.FromYaml(OptionsBlock(d))
    case Err(e) => Done(Err(e))
    case Ok(options) => ConstructWith(ctors, d.nodeType, name, inputs, options, config, platform)
  }

  /** The second pass: constructs the nodes of `sorted` in turn, each from its already
      constructed inputs, its decoded options and the video settings, stopping at the first
      failure; `nodes` holds the nodes constructed so far. */
  ghost function ConstructAll(ctors: map<string, Kind>, pipeline: map<string, NodeDef>, config: VideoConfig,
                              platform: Platform, sorted: seq<string>, nodes: map<string, NodeRef>)
    : Outcome<map<string, NodeRef>>
    requires InputsBefore(pipeline, sorted, nodes.Keys)
    decreases |sorted|
  {
    if sorted == [] then Done(Ok(nodes))
    else
      assert sorted[0] in pipeline && forall n | n in AsSlice(pipeline[sorted[0]].inputs) :: n in nodes;
      match BuildOne(ctors, pipeline, config, platform, sorted[0], nodes)
      case Panic(reason) => Panic(reason)
      case Done(Err(e)) => Done(Err(e))
      case Done(Ok(node)) =>
        InputsBeforeStep(pipeline, sorted, nodes.Keys);
        ConstructAll(ctors, pipeline, config, platform, sorted[1..], nodes[sorted[0] := node])
  }

  /** One step of the construction pass: the outcome for `sorted` is decided by building its
      first node, or is the outcome for the rest once that node is built. */
  lemma ConstructAllHead(ctors: map<string, Kind>, pipeline: map<string, NodeDef>, config: VideoConfig,
                         platform: Platform, sorted: seq<string>, nodes: map<string, NodeRef>)
    requires sorted != [] && InputsBefore(pipeline, sorted, nodes.Keys)
    ensures sorted[0] in pipeline
    ensures forall n | n in AsSlice(pipeline[sorted[0]].inputs) :: n in nodes
    ensures InputsBefore(pipeline, sorted[1..], nodes.Keys + {sorted[0]})
    ensures var o := BuildOne(ctors, pipeline, config, platform, sorted[0], nodes);
            var spec := ConstructAll(ctors, pipeline, config, platform, sorted, nodes);
            && (o.Panic? ==> spec == Panic(o.reason))
            && (o.Done? && o.result.Err? ==> spec == Done(Err(o.result.error)))
            && (o.Done? && o.result.Ok? ==>
                  spec == ConstructAll(ctors, pipeline, config, platform, sorted[1..], nodes[sorted[0] := o.result.value]))
  {
    InputsBeforeStep(pipeline, sorted, nodes.Keys);
  }

  /** What a successful construction holds: the nodes known before and every node of `sorted`,
      each under its own name and a sink exactly when its type builds one. A failure is one of
      the constructors' errors or an option block that does not decode, never an unknown
      input. */
  lemma {:induction false} ConstructAllBuilds(ctors: map<string, Kind>, pipeline: map<string, NodeDef>,
                                              config: VideoConfig, platform: Platform, sorted: seq<string>,
                                              nodes: map<string, NodeRef>)
    requires InputsBefore(pipeline, sorted, nodes.Keys)
    requires forall k | 0 <= k < |sorted| :: pipeline[sorted[k]].nodeType in ctors
    ensures var r := ConstructAll(ctors, pipeline, config, platform, sorted, nodes);
            r.Done? && r.result.Ok? ==>
              && (forall x :: x in r.result.value <==> x in nodes || x in sorted)
              && (forall x | x in nodes && x !in sorted :: r.result.value[x] == nodes[x])
              && forall x | x in sorted ::
                   r.result.value[x].name == x && (r.result.value[x].sink <==> IsSinkNode(ctors, pipeline, x))
    ensures var r := ConstructAll(ctors, pipeline, config, platform, sorted, nodes);
            r.Done? && r.result.Err? ==> r.result.error in {InvalidInputs, InvalidOptions, System}
    decreases |sorted|
  {
    if sorted != [] {
      var name := sorted[0];
      ConstructAllHead(ctors, pipeline, config, platform, sorted, nodes);
      var o := BuildOne(ctors, pipeline, config, platform, name, nodes);
      if o.Done? && o.result.Ok? {
        var rest := sorted[1..];
        assert forall k | 0 <= k < |rest| :: rest[k] == sorted[k + 1];
        ConstructAllBuilds(ctors, pipeline, config, platform, rest, nodes[name := o.result.value]);
        assert forall x :: x in sorted <==> x == name || x in rest;
      }
    }
  }

  /** The handles of the named nodes, in order. */
  function SinkHandles(nodes: map<string, NodeRef>, sinks: seq<string>): (r: seq<NodeRef>)
    requires forall i | 0 <= i < |sinks| :: sinks[i] in nodes
    ensures |r| == |sinks| && forall i | 0 <= i < |sinks| :: r[i] == nodes[sinks[i]]
  {
    if sinks == [] then [] else [nodes[sinks[0]]] + SinkHandles(nodes, sinks[1..])
  }

  /** The body of the construction loop for the node declared as `name`: resolve its inputs in
      the registry (which cannot fail, as they were constructed before it), decode its options
      and let the factory build it. */
  method ConstructOne(factory: NodeFactory, pipeline: map<string, NodeDef>, config: VideoConfig,
                      platform: Platform, name: string, registry: NodeRegistry) returns (o: Outcome<NodeRef>)
    requires name in pipeline && forall n | n in AsSlice(pipeline[name].inputs) :: n in registry.nodes
    ensures o == BuildOne(factory.constructors, pipeline, config, platform, name, registry.nodes)
  {
    var d := pipeline[name];
    var inputs := ResolveInputs(registry.nodes, AsSlice(d.inputs));
    if inputs.Err? {
      assert false;
    }
    var options := Options.FromYaml(OptionsBlock(d));
    if options.Err? {
      return Done(Err(options.error));
    }
    o := factory.ConstructNode(d.nodeType, name, inputs.value, options.value, config, platform);
  }

  /** Extending a prefix by one element. */
  lemma PrefixStep<T>(s: seq<T>, i: nat)
    requires i < |s|
    ensures s[..i + 1] == s[..i] + [s[i]]
  {
  }

  /** The construction pass over a topological order, registering each node once built. */
  method ConstructNodes(factory: NodeFactory, pipeline: map<string, NodeDef>, sorted: seq<string>,
                        config: VideoConfig, platform: Platform, registry: NodeRegistry)
    returns (o: Outcome<()>, ghost constructed: seq<string>)
    requires InputsBefore(pipeline, sorted, registry.nodes.Keys)
    modifies registry
    ensures |constructed| <= |sorted| && constructed == sorted[..|constructed|]
    ensures var spec := ConstructAll(factory.constructors, pipeline, config, platform, sorted, old(registry.nodes));
            && (o.Panic? ==> spec == Panic(o.reason))
            && (o.Done? && o.result.Err? ==> spec == Done(Err(o.result.error)))
            && (o.Done? && o.result.Ok? ==> spec == Done(Ok(registry.nodes)) && constructed == sorted)
  {
    ghost var spec := ConstructAll(factory.constructors, pipeline, config, platform, sorted, registry.nodes);
    constructed := [];
    var i := 0;
    while i < |sorted|
      invariant 0 <= i <= |sorted| && constructed == sorted[..i]
      invariant InputsBefore(pipeline, sorted[i..], registry.nodes.Keys)
      invariant ConstructAll(factory.constructors, pipeline, config, platform, sorted[i..], registry.nodes) == spec
    {
      var name := sorted[i];
      ConstructAllHead(factory.constructors, pipeline, config, platform, sorted[i..], registry.nodes);
      var node := ConstructOne(factory, pipeline, config, platform, name, registry);
      if node.Panic? {
        return Panic(node.reason), constructed;
      }
      if node.result.Err? {
        return Done(Err(node.result.error)), constructed;
      }
      assert sorted[i..][1..] == sorted[i + 1..];
      registry.Register(name, node.result.value);
      constructed := constructed + [name];
      PrefixStep(sorted, i);
      i := i + 1;
    }
    assert sorted[..|sorted|] == sorted;
    o := Done(Ok(()));
  }

  /** A topological order lists every declared node after its inputs. */
  lemma TopologicalInputsBefore(pipeline: map<string, NodeDef>, sorted: seq<string>)
    requires Graph.Topological(EdgesOf(pipeline), sorted)
    ensures InputsBefore(pipeline, sorted, {})
  {
    var g := EdgesOf(pipeline);
    forall k | 0 <= k < |sorted|
      ensures sorted[k] in pipeline
      ensures forall n | n in AsSlice(pipeline[sorted[k]].inputs) :: n in sorted[..k]
    {
      assert g[sorted[k]] == AsSlice(pipeline[sorted[k]].inputs);
    }
  }

  /** The steps after the graph checks: the video settings, the construction pass over
      `sorted` and the handles of the sinks. */
  method Assemble(factory: NodeFactory, pipeline: map<string, NodeDef>, sorted: seq<string>,
                  video: Option<VideoSection>, platform: Platform, sinks: seq<string>)
    returns (o: Outcome<seq<NodeRef>>, ghost constructed: seq<string>)
    requires Graph.Topological(EdgesOf(pipeline), sorted)
    requires forall k | 0 <= k < |sorted| :: pipeline[sorted[k]].nodeType in factory.constructors
    requires forall i | 0 <= i < |sinks| :: sinks[i] in pipeline && IsSinkNode(factory.constructors, pipeline, sinks[i])
    ensures |constructed| <= |sorted| && constructed == sorted[..|constructed|]
    ensures VideoConfigFor(video).Panic? ==> o.Panic? && constructed == []
    ensures VideoConfigFor(video).Done? ==>
              var spec := ConstructAll(factory.constructors, pipeline, VideoConfigFor(video).result.value,
                                       platform, sorted, map[]);
              && (o.Panic? <==> spec.Panic?)
              && (o.Done? && o.result.Err? ==> spec == Done(Err(o.result.error)))
              && (o.Done? && o.result.Ok? ==> spec.Done? && spec.result.Ok? && constructed == sorted)
    ensures o.Done? && o.result.Err? ==> o.result.error in {InvalidInputs, InvalidOptions, System}
    ensures o.Done? && o.result.Ok? ==>
              |o.result.value| == |sinks|
              && forall i | 0 <= i < |sinks| :: o.result.value[i].name == sinks[i] && o.result.value[i].sink
  {
    constructed := [];
    var settings := VideoConfigOf(video);
    if settings.Panic? {
      return Panic(settings.reason), constructed;
    }
    var cfg := settings.result.value;
    var registry := new NodeRegistry();
    TopologicalInputsBefore(pipeline, sorted);
    ConstructAllBuilds(factory.constructors, pipeline, cfg, platform, sorted, map[]);
    var built;
    built, constructed := ConstructNodes(factory, pipeline, sorted, cfg, platform, registry);
    if built.Panic? {
      return Panic(built.reason), constructed;
    }
    if built.result.Err? {
      return Done(Err(built.result.error)), constructed;
    }
    assert forall i | 0 <= i < |sinks| :: sinks[i] in sorted;
    var handles := SinkHandles(registry.nodes, sinks);
    o := Done(Ok(handles));
  }

  /** `PipelineConfig::pipeline`. The declared nodes are visited in `order`, the iteration order
      of the source's hash map. Checks come in the source's order: every type is registered
      (the first unknown type is reported), some node is a sink, every input names a declared
      node (indexing a missing vertex panics), the graph is acyclic; then the video settings are
      built and every node is constructed after its inputs in a topological order. `sorted` is
      that order and `constructed` the nodes constructed before the build stopped. */
  method BuildPipeline(config: PipelineConfig, order: seq<string>, factory: NodeFactory, platform: Platform)
    returns (o: Outcome<seq<NodeRef>>, ghost sorted: seq<string>, ghost constructed: seq<string>)
    requires Graph.Listing(EdgesOf(config.pipeline), order)
    ensures !AllKnown(factory.constructors, config.pipeline, order) ==>
              constructed == [] &&
              exists i | 0 <= i < |order| ::
                FirstUnknown(factory.constructors, config.pipeline, order, i)
                && o == Done(Err(UnknownNode(config.pipeline[order[i]].nodeType)))
    ensures AllKnown(factory.constructors, config.pipeline, order)
            && SinkNames(factory.constructors, config.pipeline, order) == [] ==>
              o == Done(Err(InvalidPipeline(SourceProcessorsSinkOrder))) && constructed == []
    ensures AllKnown(factory.constructors, config.pipeline, order)
            && SinkNames(factory.constructors, config.pipeline, order) != [] ==>
              && (!Graph.InputsDeclared(EdgesOf(config.pipeline)) ==> o.Panic? && constructed == [])
              && (Graph.InputsDeclared(EdgesOf(config.pipeline)) && Graph.HasCycle(EdgesOf(config.pipeline)) ==>
                    o == Done(Err(InvalidPipeline(Cycle))) && constructed == [])
    ensures AllKnown(factory.constructors, config.pipeline, order)
            && SinkNames(factory.constructors, config.pipeline, order) != []
            && Graph.InputsDeclared(EdgesOf(config.pipeline)) && !Graph.HasCycle(EdgesOf(config.pipeline)) ==>
              && Graph.Topological(EdgesOf(config.pipeline), sorted)
              && |constructed| <= |sorted| && constructed == sorted[..|constructed|]
              && (VideoConfigFor(config.video).Panic? ==> o.Panic? && constructed == [])
              && (VideoConfigFor(config.video).Done? ==>
                    var spec := ConstructAll(factory.constructors, config.pipeline,
                                             VideoConfigFor(config.video).result.value, platform, sorted, map[]);
                    && (o.Panic? <==> spec.Panic?)
                    && (o.Done? && o.result.Err? ==> spec == Done(Err(o.result.error)))
                    && (o.Done? && o.result.Ok? ==> spec.Done? && spec.result.Ok? && constructed == sorted))
    ensures o.Done? && o.result.Err? ==> o.result.error != InvalidPipeline(UnknownInput)
    ensures o.Done? && o.result.Ok? ==>
              var sinks := SinkNames(factory.constructors, config.pipeline, order);
              && |o.result.value| == |sinks|
              && forall i | 0 <= i < |sinks| :: o.result.value[i].name == sinks[i] && o.result.value[i].sink
  {
    var pipeline := config.pipeline;
    var g := EdgesOf(pipeline);
    sorted, constructed := [], [];
    var sinks := CollectSinks(factory, pipeline, order);
    if sinks.Err? {
      return Done(Err(sinks.error)), sorted, constructed;
    }
    if sinks.value == [] {
      return Done(Err(InvalidPipeline(SourceProcessorsSinkOrder))), sorted, constructed;
    }
    if !Graph.InputsDeclared(g) {
      return Panic("input names an undeclared node"), sorted, constructed;
    }
    var topo := Graph.TopoSort(g, order);
    if topo.None? {
      return Done(Err(InvalidPipeline(Cycle))), sorted, constructed;
    }
    var nodesInOrder := topo.value;
    sorted := nodesInOrder;
    forall i | 0 <= i < |sinks.value|
      ensures sinks.value[i] in pipeline && IsSinkNode(factory.constructors, pipeline, sinks.value[i])
    {
      SinkNamesExact(factory.constructors, pipeline, order, sinks.value[i]);
    }
    assert forall k | 0 <= k < |nodesInOrder| :: nodesInOrder[k] in order;
    o, constructed := Assemble(factory, pipeline, nodesInOrder, config.video, platform, sinks.value);
  }
}
