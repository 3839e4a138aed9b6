/** Node kinds, their constructors, the factory that finds a constructor by type name and the
    registry of constructed nodes (src/pipeline.rs). */
module Pipeline {

  import opened Util
  import opened Node
  import opened Inputs
  import opened Options
  import opened Video
  import AverageProcessor
  import EqualizerProcessor
  import MergeProcessor
  import SpectrumProcessor
  import RandomColorSource

  /** The kinds of node the engine knows. */
  datatype Kind = Device | RandomColor | Rtsp | Average | Circle | Equalizer | Loudness | Merge | Spectrum

  /** The type name a pipeline definition uses for each kind; the default factory finds the kind
      again under it. */
  function TypeName(k: Kind): (t: string)
    ensures t in DefaultConstructors() && DefaultConstructors()[t] == k
  {
    match k
    case Device => "device"
    case RandomColor => "random-color"
    case Rtsp => "rtsp"
    case Average => "average"
    case Circle => "circle"
    case Equalizer => "equalizer"
    case Loudness => "loudness"
    case Merge => "merge"
    case Spectrum => "spectrum"
  }

  /** What each kind of node can be pulled for; the sink keeps the default of nothing, every other
      kind offers exactly one capability. */
  function Capabilities(k: Kind): (r: set<Capability>)
    ensures r == {} <==> k == Rtsp
    ensures |r| <= 1
    ensures ProvideAudioData in r <==> k == Device
    ensures ProvideVideoFrame in r <==> k in {RandomColor, Circle, Equalizer, Merge}
    ensures ProvideSpectrum in r <==> k == Spectrum
    ensures ProvideNumber in r <==> k in {Average, Loudness}
  {
    match k
    case Device => {ProvideAudioData}
    case RandomColor => RandomColorSource.Capabilities
    case Rtsp => {}
    case Average => AverageProcessor.Capabilities
    case Circle => {ProvideVideoFrame}
    case Equalizer => EqualizerProcessor.Capabilities
    case Loudness => {ProvideNumber}
    case Merge => MergeProcessor.Capabilities
    case Spectrum => SpectrumProcessor.Capabilities
  }

  /** Whether a constructor builds a sink: only the streaming sink overrides the default. */
  function IsSink(k: Kind): (b: bool)
    ensures b <==> TypeName(k) == "rtsp"
    ensures b ==> Capabilities(k) == {}
  {
    k == Rtsp
  }

  /** Only the streaming sink is a sink, and it offers nothing to pull, so no validator accepts
      it as an input. */
  lemma SinkIsNoInput(k: Kind, name: string, v: Validator)
    ensures IsSink(k) <==> k == Rtsp
    ensures IsSink(k) ==> !Check(v, NodeRef(name, Capabilities(k), IsSink(k)))
  {
  }

  /** `Node::start` as every node but the sink inherits it: starting a non-sink fails its
      assertion. */
  function Start(node: NodeRef): (o: Outcome<()>)
    ensures o.Panic? <==> !node.sink
    ensures o.Done? ==> o.result == Ok(())
  {
    if node.sink then Done(Ok(())) else Panic("only sinks can be started")
  }

  /** What the constructors of the device source and of the streaming sink get from the
      platform: the device's sample rate if it could be read, whether the capture stream could
      be built, and whether the streaming server could be set up. Every platform failure is
      reported as a system error. */
  datatype Platform = Platform(sampleRate: Option<nat>, streamBuilt: bool, serverReady: bool)

  /** The device source: no inputs, then the sample rate, then a rate-sized audio buffer (which
      divides by the frame rate), then the capture stream. */
  function DeviceNew(inputs: seq<NodeRef>, config: VideoConfig, platform: Platform): (o: Outcome<()>)
    ensures inputs != [] ==> o == Done(Err(InvalidInputs))
    ensures inputs == [] && platform.sampleRate.None? ==> o == Done(Err(System))
    ensures o == Done(Ok(())) <==> inputs == [] && platform.sampleRate.Some? && config.fps > 0 && platform.streamBuilt
    ensures o.Panic? <==> inputs == [] && platform.sampleRate.Some? && config.fps == 0
    ensures o.Done? && o.result.Err? ==> o.result.error in {InvalidInputs, System}
  {
    match ValidateNone(inputs)
    case Err(e) => Done(Err(e))
    case Ok(_) =>
      match platform.sampleRate
      case None => Done(Err(System))
      case Some(_) =>
        if config.fps == 0 then Panic("attempt to divide by zero")
        else if !platform.streamBuilt then Done(Err(System))
        else Done(Ok(()))
  }

  /** The streaming sink: exactly one frame provider, then the server. */
  function RtspNew(inputs: seq<NodeRef>, platform: Platform): (r: Result<NodeRef>)
    ensures r.Ok? <==> |inputs| == 1 && HasCapability(inputs[0], ProvideVideoFrame) && platform.serverReady
    ensures ValidateOne(inputs, Requires(ProvideVideoFrame)).Err? ==> r == Err(InvalidInputs)
    ensures ValidateOne(inputs, Requires(ProvideVideoFrame)).Ok? && !platform.serverReady ==> r == Err(System)
  {
    var input :- ValidateOne(inputs, Requires(ProvideVideoFrame));
    if platform.serverReady then Ok(input) else Err(System)
  }

  /** The handle of a node of kind `k` declared as `name`, once its constructor has succeeded;
      errors and aborts pass through. */
  function Built<T>(name: string, k: Kind, o: Outcome<T>): (r: Outcome<NodeRef>)
    ensures r.Panic? <==> o.Panic?
    ensures r.Done? ==> (r.result.Ok? <==> o.result.Ok?)
    ensures r.Done? && r.result.Err? ==> r.result.error == o.result.error
    ensures r.Done? && r.result.Ok? ==> r.result.value == NodeRef(name, Capabilities(k), IsSink(k))
  {
    match o
    case Panic(reason) => Panic(reason)
    case Done(Err(e)) => Done(Err(e))
    case Done(Ok(_)) => Done(Ok(NodeRef(name, Capabilities(k), IsSink(k))))
  }

  /** What the constructor of kind `k` makes of the inputs, options and configuration of the
      node declared as `name`. The circle and loudness nodes only check their input. */
  function Construct(k: Kind, name: string, inputs: seq<NodeRef>, options: Options, config: VideoConfig,
                     platform: Platform): (r: Outcome<NodeRef>)
    ensures r.Done? && r.result.Ok? ==> r.result.value == NodeRef(name, Capabilities(k), IsSink(k))
    ensures r.Done? && r.result.Err? ==>
              r.result.error in {InvalidInputs, InvalidOptions, System}
  {
    match k
    case Device => Built(name, k, DeviceNew(inputs, config, platform))
    case RandomColor => Built(name, k, RandomColorSource.NewSpec(inputs, options, config))
    case Rtsp => Built(name, k, Returns(RtspNew(inputs, platform)))
    case Average => Built(name, k, Returns(AverageProcessor.New(inputs, options)))
    case Circle => Built(name, k, Returns(ValidateOne(inputs, Requires(ProvideNumber))))
    case Equalizer => Built(name, k, Returns(EqualizerProcessor.New(inputs)))
    case Loudness => Built(name, k, Returns(ValidateOne(inputs, Requires(ProvideAudioData))))
    case Merge => Built(name, k, Returns(MergeProcessor.New(inputs, options)))
    case Spectrum => Built(name, k, SpectrumProcessor.New(inputs, options))
  }

  /** A constructed node's shared handle answers a capability query as the node of its kind does. */
  lemma HandleCapabilities(k: Kind, name: string, inputs: seq<NodeRef>, options: Options, config: VideoConfig,
                           platform: Platform, c: Capability)
    requires Construct(k, name, inputs, options, config, platform).Done?
    requires Construct(k, name, inputs, options, config, platform).result.Ok?
    ensures HasCapability(Construct(k, name, inputs, options, config, platform).result.value, c)
            <==> c in Capabilities(k)
    ensures HasCapability(Construct(k, name, inputs, options, config, platform).result.value, c)
            <==> match c
                 case ProvideAudioData => k == Device
                 case ProvideVideoFrame => k in {RandomColor, Circle, Equalizer, Merge}
                 case ProvideSpectrum => k == Spectrum
                 case ProvideNumber => k in {Average, Loudness}
  {
  }

  /** The constructors the default factory registers, by type name. */
  function DefaultConstructors(): map<string, Kind>
  {
    map["device" := Device, "random-color" := RandomColor, "rtsp" := Rtsp, "average" := Average,
        "circle" := Circle, "equalizer" := Equalizer, "loudness" := Loudness, "merge" := Merge,
        "spectrum" := Spectrum]
  }

  /** The default factory knows exactly the nine kinds, each under its own type name, and only
      "rtsp" builds a sink. */
  lemma DefaultFactoryKinds(k: Kind, t: string)
    ensures TypeName(k) in DefaultConstructors() && DefaultConstructors()[TypeName(k)] == k
    ensures t in DefaultConstructors() ==> TypeName(DefaultConstructors()[t]) == t
    ensures |DefaultConstructors()| == 9
    ensures t in DefaultConstructors() ==> (IsSink(DefaultConstructors()[t]) <==> t == "rtsp")
  {
    DefaultConstructorsSize();
    if t in DefaultConstructors() {
      assert TypeName(DefaultConstructors()[t]) == t;
    }
  }

  /** The default factory knows nine distinct type names. */
  lemma DefaultConstructorsSize()
    ensures |DefaultConstructors()| == 9
  {
    DefaultTypeNames();
    NineTypeNames();
    assert |DefaultConstructors()| == |DefaultConstructors().Keys|;
  }

  /** The type names the default factory registers. */
  lemma DefaultTypeNames()
    ensures DefaultConstructors().Keys
            == {"device", "random-color", "rtsp", "average", "circle", "equalizer", "loudness", "merge", "spectrum"}
  {
  }

  /** The nine type names are distinct. */
  lemma NineTypeNames()
    ensures |{"device", "random-color", "rtsp", "average", "circle", "equalizer", "loudness", "merge", "spectrum"}| == 9
  {
  }

  /** Constructors by the type name they are registered under. */
  class NodeFactory {
    var constructors: map<string, Kind>

    /** Every constructor is registered under its own type name. */
    ghost predicate Valid()
      reads this
    {
      forall t | t in constructors :: TypeName(constructors[t]) == t
    }

    constructor Empty()
      ensures Valid() && constructors == map[]
    {
      constructors := map[];
    }

    /** Registers the constructor of kind `k`; the source asserts that its type name was not
        registered before. */
    method Register(k: Kind)
      requires Valid() && TypeName(k) !in constructors
      modifies this
      ensures Valid()
      ensures constructors == old(constructors)[TypeName(k) := k]
    {
      constructors := constructors[TypeName(k) := k];
    }

    /** The constructor registered under `t`, if any. */
    function Get(t: string): (r: Option<Kind>)
      reads this
      ensures r.Some? <==> t in constructors
      ensures r.Some? ==> r.value == constructors[t]
      ensures Valid() && r.Some? ==> TypeName(r.value) == t
    {
      if t in constructors then Some(constructors[t]) else None
    }

    /** Builds a node of the type named `t`, or reports the unknown type name. */
    method ConstructNode(t: string, name: string, inputs: seq<NodeRef>, options: Options,
                         config: VideoConfig, platform: Platform) returns (o: Outcome<NodeRef>)
      ensures t !in constructors ==> o == Done(Err(UnknownNode(t)))
      ensures t in constructors ==> o == Construct(constructors[t], name, inputs, options, config, platform)
    {
      match Get(t) {
        case None =>
          return Done(Err(UnknownNode(t)));
        case Some(k) =>
          if k == RandomColor {
            var p := RandomColorSource.New(inputs, options, config);
            o := Built(name, k, p);
          } else {
            o := Construct(k, name, inputs, options, config, platform);
          }
      }
    }

    /** The default factory: the two sources, the sink and the six processors. */
    constructor Default()
      ensures Valid() && constructors == DefaultConstructors()
    {
      constructors := map[];
      new;
      Register(Device);
      Register(RandomColor);
      Register(Rtsp);
      Register(Average);
      Register(Circle);
      Register(Equalizer);
      Register(Loudness);
      Register(Merge);
      Register(Spectrum);
    }
  }

  /** Constructed nodes by the name they were declared under. */
  class NodeRegistry {
    var nodes: map<string, NodeRef>

    constructor ()
      ensures nodes == map[]
    {
      nodes := map[];
    }

    /** Stores `node` under `name`, replacing what was there. */
    method Register(name: string, node: NodeRef)
      modifies this
      ensures nodes == old(nodes)[name := node]
      ensures Get(name) == Some(node)
      ensures forall other | other != name :: Get(other) == old(Get(other))
    {
      nodes := nodes[name := node];
    }

    /** The node registered under `name`, if any. */
    function Get(name: string): (r: Option<NodeRef>)
      reads this
      ensures r.Some? <==> name in nodes
      ensures r.Some? ==> r.value == nodes[name]
    {
      if name in nodes then Some(nodes[name]) else None
    }
  }
}
