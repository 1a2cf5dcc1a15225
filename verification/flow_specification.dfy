/** The staged builder of a flow's topology: `FlowSpecification.Builder` keeps the
    flow's name and description, a map from flowlet name to its definition, the set of
    stream names some flowlet accepts, and the list of connections. The staged
    interfaces (`DescriptionSetter`, `AfterDescription`, `MoreFlowlet`, `Connector`)
    all write into one builder; here they are the methods of `Builder` and `Connector`. */
module FlowSpecification {
  import opened Wrappers
  import opened FlowletInspection

  /** A flowlet instance as the flow sees it: the name its `configure()` reports and
      the class hierarchy that inspection walks. */
  datatype Flowlet = Flowlet(name: string, hierarchy: seq<ClassLevel>)

  /** What the `ResourceSpecification.Builder` callback hands back; stored as given. */
  datatype ResourceSpec = ResourceSpec(virtualCores: int, memoryMB: int)

  datatype FlowletDefinition = FlowletDefinition(
    flowletName: string,
    instances: int,
    resources: ResourceSpec,
    inputs: map<string, TypeRef>,
    outputs: map<string, TypeRef>)

  datatype SourceType = StreamSource | FlowletSource

  datatype FlowletConnection = FlowletConnection(
    sourceType: SourceType,
    sourceName: string,
    targetName: string,
    sourceOutput: string,
    targetInput: string)

  /** The built `FlowSpecification`. */
  datatype FlowSpec = FlowSpec(
    name: Option<string>,
    description: Option<string>,
    flowlets: map<string, FlowletDefinition>,
    connections: seq<FlowletConnection>)

  /** The `IllegalArgumentException`s (and one `NullPointerException`) the builder throws. */
  datatype BuildError =
    | NullName
    | NullDescription
    | NullFlowlet
    | NullStream
    | NonPositiveInstances(instances: int)
    | BadFlowletClass(cause: InspectError)
    | DuplicateFlowlet(flowlet: string)
    | UndefinedFlowlet(flowlet: string)
    | StreamNotAccepted(stream: string)
    | NoInputForStream(stream: string, flowlet: string)
    | NotStreamEventInput(stream: string, flowlet: string)

  /** The StreamEvent-typed names of one flowlet's inputs. */
  ghost function StreamNames(inputs: map<string, TypeRef>): set<string> {
    set n | n in inputs && inputs[n] == StreamEvent
  }

  /** The StreamEvent-typed input names of the flowlets stored under `keys`. */
  ghost function StreamInputsOf(defs: map<string, FlowletDefinition>, keys: set<string>): set<string> {
    set k, n | k in keys && k in defs && n in StreamNames(defs[k].inputs) :: n
  }

  lemma StreamInputsOfStep(defs: map<string, FlowletDefinition>, keys: set<string>, k: string)
    requires k in defs
    ensures StreamInputsOf(defs, keys + {k}) == StreamInputsOf(defs, keys) + StreamNames(defs[k].inputs)
  {
  }

  /** Every input name, across all defined flowlets, whose type is StreamEvent. */
  ghost function StreamInputs(defs: map<string, FlowletDefinition>): set<string> {
    StreamInputsOf(defs, defs.Keys)
  }

  /** A connection `to` can have appended: from a stream into a StreamEvent-typed input
      of a defined flowlet, the input being the stream's own name or the any-input "". */
  predicate ConnectsStream(defs: map<string, FlowletDefinition>, c: FlowletConnection) {
    && c.sourceType == StreamSource
    && c.sourceName == ""
    && (c.targetInput == c.sourceOutput || c.targetInput == AnyInput)
    && c.targetName in defs
    && c.targetInput in defs[c.targetName].inputs
    && defs[c.targetName].inputs[c.targetInput] == StreamEvent
  }

  /** `add(flowlet, instances)` followed by the resource callback's `apply`: the definition
      it stores, or the exception it throws, in the order the source checks. */
  function NewDefinition(defs: map<string, FlowletDefinition>, flowlet: Option<Flowlet>, instances: int, resources: ResourceSpec)
    : (r: Result<FlowletDefinition, BuildError>)
    ensures r.Ok? <==>
      flowlet.Some? && instances > 0 && Inspect(flowlet.value.hierarchy).Ok? && flowlet.value.name !in defs
    ensures flowlet.None? ==> r == Err(NullFlowlet)
    ensures flowlet.Some? && instances <= 0 ==> r == Err(NonPositiveInstances(instances))
    ensures flowlet.Some? && instances > 0 && Inspect(flowlet.value.hierarchy).Err? ==>
      r == Err(BadFlowletClass(Inspect(flowlet.value.hierarchy).error))
    ensures flowlet.Some? && instances > 0 && Inspect(flowlet.value.hierarchy).Ok? && flowlet.value.name in defs ==>
      r == Err(DuplicateFlowlet(flowlet.value.name))
    ensures r.Ok? ==>
      && r.value.flowletName == flowlet.value.name
      && r.value.instances == instances >= 1
      && r.value.resources == resources
      && Inspect(flowlet.value.hierarchy) == Ok(Inspection(r.value.inputs, r.value.outputs))
  {
    if flowlet.None? then Err(NullFlowlet)
    else if instances <= 0 then Err(NonPositiveInstances(instances))
    else
      match Inspect(flowlet.value.hierarchy)
      case Err(e) => Err(BadFlowletClass(e))
      case Ok(x) =>
        if flowlet.value.name in defs then Err(DuplicateFlowlet(flowlet.value.name))
        else Ok(FlowletDefinition(flowlet.value.name, instances, resources, x.inputs, x.outputs))
  }

  /** `to(target)` after `from(stream)`: the STREAM connection it appends, or the exception. */
  function StreamConnection(target: FlowletDefinition, targetName: string, stream: string)
    : (r: Result<FlowletConnection, BuildError>)
    ensures var input := if stream in target.inputs then stream else AnyInput;
      && (r.Ok? <==> input in target.inputs && target.inputs[input] == StreamEvent)
      && (r.Ok? ==> r.value == FlowletConnection(StreamSource, "", targetName, stream, input))
      && (input !in target.inputs ==> r == Err(NoInputForStream(stream, targetName)))
      && (input in target.inputs && target.inputs[input] != StreamEvent ==>
            r == Err(NotStreamEventInput(stream, targetName)))
  {
    var targetInput := if stream in target.inputs then stream else AnyInput;
    if targetInput !in target.inputs then Err(NoInputForStream(stream, targetName))
    else if target.inputs[targetInput] != StreamEvent then Err(NotStreamEventInput(stream, targetName))
    else Ok(FlowletConnection(StreamSource, "", targetName, stream, targetInput))
  }

  /** Adding a flowlet under a fresh name keeps every stream name accepted and every
      connection valid. */
  lemma AddKeepsTopology(defs: map<string, FlowletDefinition>, k: string, d: FlowletDefinition, cs: seq<FlowletConnection>)
    requires k !in defs
    requires forall c :: c in cs ==> ConnectsStream(defs, c)
    ensures StreamInputs(defs) <= StreamInputs(defs[k := d])
    ensures forall c :: c in cs ==> ConnectsStream(defs[k := d], c)
  {
    forall n | n in StreamInputs(defs) ensures n in StreamInputs(defs[k := d]) {
      var k', n' :| k' in defs && n' in StreamNames(defs[k'].inputs) && n' == n;
      assert k' in defs[k := d].Keys && defs[k := d][k'] == defs[k'];
    }
  }

  class Builder {
    var name: Option<string>
    var description: Option<string>
    var streams: set<string>
    var flowlets: map<string, FlowletDefinition>
    var connections: seq<FlowletConnection>

    /** Each definition is stored under its flowlet's name and has at least one instance;
        each accepted stream name is a StreamEvent input of some flowlet; each
        connection feeds a defined flowlet's StreamEvent input. */
    ghost predicate Valid()
      reads this
    {
      && (forall n :: n in flowlets ==> flowlets[n].flowletName == n && flowlets[n].instances >= 1)
      && streams <= StreamInputs(flowlets)
      && (forall c :: c in connections ==> ConnectsStream(flowlets, c))
    }

    /** `FlowSpecification.builder()`. */
    constructor ()
      ensures Valid()
      ensures name == None && description == None
      ensures streams == {} && flowlets == map[] && connections == []
    {
      name, description := None, None;
      streams, flowlets, connections := {}, map[], [];
    }

    /** `setName`: rejects null, otherwise stores the name. */
    method SetName(n: Option<string>) returns (r: Outcome<BuildError>)
      requires Valid()
      modifies this
      ensures Valid()
      ensures r == (if n.None? then Fail(NullName) else Pass)
      ensures name == (if n.None? then old(name) else n)
      ensures description == old(description) && streams == old(streams)
      ensures flowlets == old(flowlets) && connections == old(connections)
    {
      if n.None? {
        return Fail(NullName);
      }
      name := n;
      return Pass;
    }

    /** `DescriptionSetter.setDescription`: rejects null, otherwise stores the description. */
    method SetDescription(d: Option<string>) returns (r: Outcome<BuildError>)
      requires Valid()
      modifies this
      ensures Valid()
      ensures r == (if d.None? then Fail(NullDescription) else Pass)
      ensures description == (if d.None? then old(description) else d)
      ensures name == old(name) && streams == old(streams)
      ensures flowlets == old(flowlets) && connections == old(connections)
    {
      if d.None? {
        return Fail(NullDescription);
      }
      description := d;
      return Pass;
    }

    /** `MoreFlowlet.add(flowlet, instances)` with its resource callback applied: stores
        one new definition under the flowlet's name, and changes nothing on failure. */
    method Add(flowlet: Option<Flowlet>, instances: int, resources: ResourceSpec) returns (r: Outcome<BuildError>)
      requires Valid()
      modifies this
      ensures Valid()
      ensures var d := NewDefinition(old(flowlets), flowlet, instances, resources);
        && (d.Ok? ==> r == Pass && flowlets == old(flowlets)[d.value.flowletName := d.value])
        && (d.Err? ==> r == Fail(d.error) && flowlets == old(flowlets))
      ensures name == old(name) && description == old(description)
      ensures streams == old(streams) && connections == old(connections)
    {
      if flowlet.None? {
        return Fail(NullFlowlet);
      }
      if instances <= 0 {
        return Fail(NonPositiveInstances(instances));
      }
      var inspection := InspectFlowlet(flowlet.value.hierarchy);
      if inspection.Err? {
        return Fail(BadFlowletClass(inspection.error));
      }
      var flowletName := flowlet.value.name;
      if flowletName in flowlets {
        return Fail(DuplicateFlowlet(flowletName));
      }
      var definition := FlowletDefinition(flowletName, instances, resources, inspection.value.inputs, inspection.value.outputs);
      AddKeepsTopology(flowlets, flowletName, definition, connections);
      flowlets := flowlets[flowletName := definition];
      return Pass;
    }

    /** `MoreFlowlet.add(flowlet)`: exactly `add(flowlet, 1)`. */
    method AddOne(flowlet: Option<Flowlet>, resources: ResourceSpec) returns (r: Outcome<BuildError>)
      requires Valid()
      modifies this
      ensures Valid()
      ensures var d := NewDefinition(old(flowlets), flowlet, 1, resources);
        && (d.Ok? ==> r == Pass && flowlets == old(flowlets)[d.value.flowletName := d.value])
        && (d.Err? ==> r == Fail(d.error) && flowlets == old(flowlets))
      ensures name == old(name) && description == old(description)
      ensures streams == old(streams) && connections == old(connections)
    {
      r := Add(flowlet, 1, resources);
    }

    /** `MoreFlowlet.connect()`: adds to the accepted streams every StreamEvent-typed input
        name of every defined flowlet, and starts a connector with no source chosen. */
    method Connect() returns (c: Connector)
      requires Valid()
      modifies this`streams
      ensures Valid()
      ensures streams == old(streams) + StreamInputs(flowlets)
      ensures fresh(c) && c.builder == this && c.fromStream == None && c.fromFlowlet == None
    {
      var pending := flowlets.Keys;
      ghost var done: set<string> := {};
      while pending != {}
        invariant pending !! done && pending + done == flowlets.Keys
        invariant streams == old(streams) + StreamInputsOf(flowlets, done)
        decreases pending
      {
        var key :| key in pending;
        AddStreamNames(flowlets[key].inputs);
        StreamInputsOfStep(flowlets, done, key);
        pending, done := pending - {key}, done + {key};
      }
      c := new Connector(this);
    }

    /** The inner loop of `connect()`: one flowlet's StreamEvent-typed input names. */
    method AddStreamNames(inputs: map<string, TypeRef>)
      modifies this`streams
      ensures streams == old(streams) + StreamNames(inputs)
    {
      var names := inputs.Keys;
      while names != {}
        invariant names <= inputs.Keys
        invariant streams == old(streams) + (StreamNames(inputs) - names)
        decreases names
      {
        var n :| n in names;
        if inputs[n] == StreamEvent {
          streams := streams + {n};
        }
        names := names - {n};
      }
    }
  }

  /** `Builder.Connector`: remembers the source of the connection being defined. */
  class Connector {
    const builder: Builder
    var fromStream: Option<string>
    var fromFlowlet: Option<FlowletDefinition>

    /** At most one source is chosen at a time. */
    ghost predicate OneSource()
      reads this
    {
      fromStream.None? || fromFlowlet.None?
    }

    constructor (b: Builder)
      ensures builder == b && fromStream == None && fromFlowlet == None
    {
      builder := b;
      fromStream, fromFlowlet := None, None;
    }

    /** `from(Flowlet)`: the flowlet must be defined; it becomes the source and the
        stream source is cleared. */
    method FromFlowlet(flowlet: Option<Flowlet>) returns (r: Outcome<BuildError>)
      requires OneSource()
      modifies this
      ensures OneSource()
      ensures r.Pass? <==> flowlet.Some? && flowlet.value.name in builder.flowlets
      ensures flowlet.None? ==> r == Fail(NullFlowlet)
      ensures flowlet.Some? && flowlet.value.name !in builder.flowlets ==> r == Fail(UndefinedFlowlet(flowlet.value.name))
      ensures r.Pass? ==> fromFlowlet == Some(builder.flowlets[flowlet.value.name]) && fromStream == None
      ensures r.Fail? ==> fromFlowlet == old(fromFlowlet) && fromStream == old(fromStream)
    {
      if flowlet.None? {
        return Fail(NullFlowlet);
      }
      var flowletName := flowlet.value.name;
      if flowletName !in builder.flowlets {
        return Fail(UndefinedFlowlet(flowletName));
      }
      fromFlowlet := Some(builder.flowlets[flowletName]);
      fromStream := None;
      return Pass;
    }

    /** `from(Stream)`: the stream's name, or the any-input name "", must be accepted;
        the stream becomes the source and the flowlet source is cleared. */
    method FromStream(stream: Option<string>) returns (r: Outcome<BuildError>)
      requires OneSource()
      modifies this
      ensures OneSource()
      ensures r.Pass? <==> stream.Some? && (stream.value in builder.streams || AnyInput in builder.streams)
      ensures stream.None? ==> r == Fail(NullStream)
      ensures stream.Some? && !(stream.value in builder.streams || AnyInput in builder.streams) ==>
        r == Fail(StreamNotAccepted(stream.value))
      ensures r.Pass? ==> fromStream == stream && fromFlowlet == None
      ensures r.Fail? ==> fromFlowlet == old(fromFlowlet) && fromStream == old(fromStream)
    {
      if stream.None? {
        return Fail(NullStream);
      }
      var streamName := stream.value;
      if !(streamName in builder.streams || AnyInput in builder.streams) {
        return Fail(StreamNotAccepted(streamName));
      }
      fromFlowlet := None;
      fromStream := Some(streamName);
      return Pass;
    }

    /** `to(Flowlet)`: the target must be defined. From a stream it appends one STREAM
        connection; from a flowlet it records nothing. */
    method To(flowlet: Option<Flowlet>) returns (r: Outcome<BuildError>)
      requires builder.Valid()
      modifies builder
      ensures builder.Valid()
      ensures builder.name == old(builder.name) && builder.description == old(builder.description)
      ensures builder.streams == old(builder.streams) && builder.flowlets == old(builder.flowlets)
      ensures flowlet.None? ==> r == Fail(NullFlowlet)
      ensures flowlet.Some? && flowlet.value.name !in builder.flowlets ==> r == Fail(UndefinedFlowlet(flowlet.value.name))
      ensures flowlet.Some? && flowlet.value.name in builder.flowlets && fromStream.None? ==> r == Pass
      ensures flowlet.Some? && flowlet.value.name in builder.flowlets && fromStream.Some? ==>
        var c := StreamConnection(builder.flowlets[flowlet.value.name], flowlet.value.name, fromStream.value);
        && (c.Ok? ==> r == Pass && builder.connections == old(builder.connections) + [c.value])
        && (c.Err? ==> r == Fail(c.error))
      ensures r.Fail? || fromStream.None? ==> builder.connections == old(builder.connections)
    {
      if flowlet.None? {
        return Fail(NullFlowlet);
      }
      var flowletName := flowlet.value.name;
      if flowletName !in builder.flowlets {
        return Fail(UndefinedFlowlet(flowletName));
      }
      var flowletDef := builder.flowlets[flowletName];
      if fromStream.Some? {
        var connection := StreamConnection(flowletDef, flowletName, fromStream.value);
        if connection.Err? {
          return Fail(connection.error);
        }
        builder.connections := builder.connections + [connection.value];
      }
      return Pass;
    }

    /** `build()`: the flow as defined so far. */
    method Build() returns (spec: FlowSpec)
      requires builder.Valid()
      ensures spec == FlowSpec(builder.name, builder.description, builder.flowlets, builder.connections)
      ensures forall n :: n in spec.flowlets ==> spec.flowlets[n].flowletName == n && spec.flowlets[n].instances >= 1
      ensures forall c :: c in spec.connections ==> ConnectsStream(spec.flowlets, c)
    {
      spec := FlowSpec(builder.name, builder.description, builder.flowlets, builder.connections);
    }
  }
}
