/** What normalisation makes of each proposed node, said on the proposal's own
    fields and the registries alone. */
module NormalizedNodes {
  import opened TaskGraphs
  import opened Expansion
  import opened Validation
  import opened Wiring
  import opened Compilation
  import opened Persistence

  // ----- the tool a node gets -----

  ghost predicate Names(n: NodeBody, tool: string) {
    "tool" in n.execution && n.execution["tool"] == tool && tool != ""
  }

  ghost predicate NamesNone(n: NodeBody) {
    "tool" !in n.execution || n.execution["tool"] == ""
  }

  /** The tool the node names or, when it names none, the one its name suggests. */
  ghost predicate MeansTool(c: Catalog, n: NodeBody, tool: string) {
    Names(n, tool) || (NamesNone(n) && tool != "" && c.inferTool(n.name) == Some(tool))
  }

  ghost predicate Registered(c: Catalog, n: NodeBody) {
    exists tool :: MeansTool(c, n, tool) && c.hasTool(tool)
  }

  /** The kind, execution and cache setting of the persisted node. */
  ghost predicate Executes(c: Catalog, n: NodeBody, b: NodeBody) {
    if n.kind != Tool then b.kind == n.kind && b.execution == n.execution && b.allowCache == n.allowCache
    else if Registered(c, n) then
      && b.kind == Tool && b.allowCache == n.allowCache
      && exists tool :: MeansTool(c, n, tool) && c.hasTool(tool) && b.execution == n.execution["tool" := tool]
    else b.kind == Model && b.execution == map[] && b.allowCache == None
  }

  lemma MeantTool(c: Catalog, n: NodeBody, tool: string)
    ensures MeansTool(c, n, tool) <==> !Missing(ToolOf(c, n)) && ToolOf(c, n).value == tool
  {}

  lemma ExecutesExactly(c: Catalog, n: NodeBody)
    ensures Executes(c, n, CanonicalBody(c, RecoverHallucinatedTool(c, n)))
  {
    hide DeclaredPorts, WithDefaultPort, DeclaredSchema, MeansTool, ToolOf;
    forall tool ensures MeansTool(c, n, tool) <==> !Missing(ToolOf(c, n)) && ToolOf(c, n).value == tool {
      MeantTool(c, n, tool);
    }
    if n.kind == Tool && !Missing(ToolOf(c, n)) && c.hasTool(ToolOf(c, n).value) {
      assert MeansTool(c, n, ToolOf(c, n).value);
    }
  }

  // ----- its schemas -----

  /** The schema a field gives, once placeholders are discarded. */
  ghost predicate Gives(c: Catalog, field: Option<string>, schema: string) {
    field.Some? && c.clean(field.value) == Some(schema) && schema != ""
  }

  ghost predicate GivesNone(c: Catalog, field: Option<string>) {
    forall schema :: !Gives(c, field, schema)
  }

  function Entry(m: map<string, string>, key: string): Option<string> {
    if key in m then Some(m[key]) else None
  }

  /** The node's own field first, then its metadata. */
  ghost predicate Asks(c: Catalog, field: Option<string>, metadata: map<string, string>, key: string, schema: string) {
    Gives(c, field, schema) || (GivesNone(c, field) && Gives(c, Entry(metadata, key), schema))
  }

  lemma GivesExactly(c: Catalog, field: Option<string>)
    ensures Missing(Clean(c, field)) <==> GivesNone(c, field)
    ensures !Missing(Clean(c, field)) ==> Gives(c, field, Clean(c, field).value)
  {
    if !Missing(Clean(c, field)) {
      assert Gives(c, field, Clean(c, field).value);
    }
  }

  lemma AsksExactly(c: Catalog, field: Option<string>, metadata: map<string, string>, key: string)
    ensures var d := DeclaredSchema(c, field, metadata, key);
      && (!Missing(d) ==> Asks(c, field, metadata, key, d.value))
      && (forall schema :: Asks(c, field, metadata, key, schema) ==> d == Some(schema) && schema != "")
  {
    GivesExactly(c, field);
    GivesExactly(c, Entry(metadata, key));
  }

  /** The result is what is asked for, unless that is nothing or the banned
      schema: then it is the default. */
  ghost predicate Chooses(c: Catalog, field: Option<string>, metadata: map<string, string>, key: string,
                          banned: string, default: string, result: Option<string>) {
    && result.Some?
    && if exists s :: Asks(c, field, metadata, key, s) && s != banned
       then Asks(c, field, metadata, key, result.value) && result.value != banned
       else result.value == default
  }

  ghost predicate ChoosesIn(c: Catalog, n: NodeBody, default: string, result: Option<string>) {
    Chooses(c, n.inputSchema, n.metadata, "input_schema", "", default, result)
  }

  ghost predicate ChoosesOut(c: Catalog, n: NodeBody, banned: string, default: string, result: Option<string>) {
    Chooses(c, n.outputSchema, n.metadata, "output_schema", banned, default, result)
  }

  ghost predicate Keeps(c: Catalog, field: Option<string>, metadata: map<string, string>, key: string,
                        result: Option<string>) {
    if exists s :: Asks(c, field, metadata, key, s) then result.Some? && Asks(c, field, metadata, key, result.value)
    else Missing(result)
  }

  ghost predicate InputOf(c: Catalog, n: NodeBody, kind: NodeKind, tool: Option<string>, input: Option<string>) {
    match kind
    case Intent => input == None
    case Final => input == Some("Summary")
    case Tool => tool.Some? && ChoosesIn(c, n, c.toolSchemas(tool.value).0, input)
    case Model => ChoosesIn(c, n, "RawText", input)
    case Compress => ChoosesIn(c, n, "RawText", input)
    case _ => Keeps(c, n.inputSchema, n.metadata, "input_schema", input)
  }

  /** A processing node never ends in the terminal schema. */
  ghost predicate OutputOf(c: Catalog, n: NodeBody, kind: NodeKind, tool: Option<string>, output: Option<string>) {
    match kind
    case Intent => output == Some("RawText")
    case Final => output == Some("FinalAnswer")
    case Tool => tool.Some? && ChoosesOut(c, n, "", c.toolSchemas(tool.value).1, output)
    case Model => ChoosesOut(c, n, "FinalAnswer", "Summary", output)
    case Compress => ChoosesOut(c, n, "FinalAnswer", "Summary", output)
    case _ => Keeps(c, n.outputSchema, n.metadata, "output_schema", output)
  }

  lemma ChoosesExactly(c: Catalog, field: Option<string>, metadata: map<string, string>, key: string, default: string)
    ensures var d := DeclaredSchema(c, field, metadata, key);
      && Chooses(c, field, metadata, key, "", default, Default(d, default))
      && Chooses(c, field, metadata, key, "FinalAnswer", default,
                 if d == Some("FinalAnswer") then Some(default) else Default(d, default))
      && Keeps(c, field, metadata, key, d)
  {
    hide Asks, DeclaredSchema;
    AsksExactly(c, field, metadata, key);
  }

  lemma SchemasExactly(c: Catalog, n: NodeBody)
    requires n.kind == Tool ==> !Missing(ToolOf(c, n)) && c.hasTool(ToolOf(c, n).value)
    ensures InputOf(c, n, n.kind, ToolOf(c, n), CanonicalFields(c, n).0)
    ensures OutputOf(c, n, n.kind, ToolOf(c, n), CanonicalFields(c, n).1)
  {
    hide Chooses, Keeps, DeclaredSchema, ToolOf;
    ChoosesExactly(c, n.inputSchema, n.metadata, "input_schema", "RawText");
    ChoosesExactly(c, n.outputSchema, n.metadata, "output_schema", "Summary");
    if n.kind == Tool {
      var tool := ToolOf(c, n).value;
      ChoosesExactly(c, n.inputSchema, n.metadata, "input_schema", c.toolSchemas(tool).0);
      ChoosesExactly(c, n.outputSchema, n.metadata, "output_schema", c.toolSchemas(tool).1);
    }
  }

  // ----- its ports -----

  ghost predicate Directs(word: string, direction: string) {
    || (direction == "input" && (word == "in" || word == "input"))
    || (direction == "output" && (word == "out" || word == "output"))
  }

  /** The persisted form of a declared port: same name and requirement, the
      direction spelt out, its own schema or else the node's or else RawText. */
  ghost predicate PortOf(c: Catalog, p: Port, input: Option<string>, output: Option<string>, q: Port) {
    && q.name == p.name && q.required == p.required && Directs(p.direction, q.direction)
    && var mine := if q.direction == "input" then input else output;
    if c.clean(p.schemaRef).Some? && c.clean(p.schemaRef).value != "" then Some(q.schemaRef) == c.clean(p.schemaRef)
    else if c.clean(p.schemaRef).Some? || Missing(mine) then q.schemaRef == "RawText"
    else Some(q.schemaRef) == mine
  }

  ghost predicate Undirected(p: Port) {
    !Directs(p.direction, "input") && !Directs(p.direction, "output")
  }

  /** The declared ports that have a direction, in their order. */
  ghost predicate PortsOf(c: Catalog, ports: seq<Port>, input: Option<string>, output: Option<string>, qs: seq<Port>)
    decreases ports
  {
    if ports == [] then qs == []
    else if Undirected(ports[|ports| - 1]) then PortsOf(c, ports[..|ports| - 1], input, output, qs)
    else
      && qs != [] && PortOf(c, ports[|ports| - 1], input, output, qs[|qs| - 1])
      && PortsOf(c, ports[..|ports| - 1], input, output, qs[..|qs| - 1])
  }

  lemma PortExactly(c: Catalog, p: Port, input: Option<string>, output: Option<string>)
    ensures Direction(p.direction).Some? ==>
      PortOf(c, p, input, output, CanonicalPort(c, p, Direction(p.direction).value, input, output))
    ensures Direction(p.direction).None? <==> Undirected(p)
  {}

  lemma {:induction false} PortsExactly(c: Catalog, ports: seq<Port>, input: Option<string>, output: Option<string>)
    ensures PortsOf(c, ports, input, output, DeclaredPorts(c, ports, input, output))
  {
    hide CanonicalPort, PortOf, Undirected, Direction;
    if ports != [] {
      var k := |ports| - 1;
      PortExactly(c, ports[k], input, output);
      PortsExactly(c, ports[..k], input, output);
      var front := DeclaredPorts(c, ports[..k], input, output);
      if Direction(ports[k].direction).Some? {
        var last := CanonicalPort(c, ports[k], Direction(ports[k].direction).value, input, output);
        assert (front + [last])[..|front + [last]| - 1] == front;
      } else {
        assert front + [] == front;
      }
    }
  }

  /** The declared ports and, for a schema in whose direction none is declared, one
      default port. */
  ghost predicate HasPorts(c: Catalog, n: NodeBody, b: NodeBody) {
    exists declared, withInput ::
      && PortsOf(c, n.ports, b.inputSchema, b.outputSchema, declared)
      && Completes(declared, "input", b.inputSchema, withInput)
      && Completes(withInput, "output", b.outputSchema, b.ports)
  }

  ghost predicate Completes(ports: seq<Port>, name: string, schema: Option<string>, after: seq<Port>) {
    if Missing(schema) || exists p :: p in ports && p.direction == name then after == ports
    else after == ports + [Port(name, name, schema.value, true)]
  }

  lemma HasPortsExactly(c: Catalog, n: NodeBody)
    ensures HasPorts(c, n, CanonicalBody(c, n))
  {
    hide CanonicalFields, DeclaredPorts, PortsOf;
    var fields := CanonicalFields(c, n);
    PortsExactly(c, n.ports, fields.0, fields.1);
    var declared := DeclaredPorts(c, n.ports, fields.0, fields.1);
    assert Completes(declared, "input", fields.0, WithDefaultPort(declared, "input", fields.0));
  }

  // ----- the whole graph -----

  ghost predicate HasKind(p: Proposal, kind: NodeKind) {
    exists n :: n in p.nodes && n.kind == kind
  }

  ghost function Shift(p: Proposal): nat {
    if HasKind(p, Intent) then 0 else 1
  }

  ghost predicate Becomes(c: Catalog, n: NodeBody, b: NodeBody) {
    && b.name == n.name && b.metadata == n.metadata["proposal_name" := n.name] && b.expansion == n.expansion
    && Executes(c, n, b)
    && InputOf(c, n, b.kind, Entry(b.execution, "tool"), b.inputSchema)
    && OutputOf(c, n, b.kind, Entry(b.execution, "tool"), b.outputSchema)
    && HasPorts(c, n, b)
  }

  lemma RecoveredKind(c: Catalog, p: Proposal, kind: NodeKind)
    requires kind != Tool && kind != Model
    ensures FirstOf(Recovered(c, p.nodes), kind).Some? <==> HasKind(p, kind)
  {
    hide ToolOf;
    var recovered := Recovered(c, p.nodes);
    if HasKind(p, kind) {
      var i :| 0 <= i < |p.nodes| && p.nodes[i].kind == kind;
      assert recovered[i] in recovered && recovered[i].kind == kind;
    }
    if FirstOf(recovered, kind).Some? {
      var i :| 0 <= i < |recovered| && recovered[i] == FirstOf(recovered, kind).value;
      assert p.nodes[i] in p.nodes && p.nodes[i].kind == kind;
    }
  }

  /** The completed list: the injected intent when there is none, the recovered
      nodes, the injected final when there is none. */
  lemma CompletedExactly(c: Catalog, p: Proposal)
    ensures var nodes := Completed(c, p).nodes;
      && |nodes| == Shift(p) + |p.nodes| + (if HasKind(p, Final) then 0 else 1)
      && (forall j :: 0 <= j < |p.nodes| ==> nodes[Shift(p) + j] == RecoverHallucinatedTool(c, p.nodes[j]))
      && (!HasKind(p, Intent) ==> nodes[0] == ROOT_PROMPT)
      && (!HasKind(p, Final) ==> nodes[|nodes| - 1].kind == Final && nodes[|nodes| - 1].name == "final"
                                 && nodes[|nodes| - 1].ports == [] && nodes[|nodes| - 1].execution == map[])
  {
    hide RecoverHallucinatedTool, FirstOf, HasKind, InjectionSink, WithIntent;
    WithIntentExactly(c, p);
    WithIntentKeepsFinal(c, p);
    WithFinalExactly(Proposal(WithIntent(Recovered(c, p.nodes)), p.edges));
  }

  lemma WithFinalExactly(p: Proposal)
    ensures var nodes := WithFinal(p).nodes;
      if FirstOf(p.nodes, Final).Some? then nodes == p.nodes
      else
        && |nodes| == |p.nodes| + 1 && nodes[..|p.nodes|] == p.nodes
        && nodes[|p.nodes|].kind == Final && nodes[|p.nodes|].name == "final"
        && nodes[|p.nodes|].ports == [] && nodes[|p.nodes|].execution == map[]
  {
    hide FirstOf, InjectionSink;
  }

  lemma WithIntentExactly(c: Catalog, p: Proposal)
    ensures var nodes := WithIntent(Recovered(c, p.nodes));
      && |nodes| == Shift(p) + |p.nodes|
      && (forall j :: 0 <= j < |p.nodes| ==> nodes[Shift(p) + j] == RecoverHallucinatedTool(c, p.nodes[j]))
      && (!HasKind(p, Intent) ==> |nodes| > 0 && nodes[0] == ROOT_PROMPT)
  {
    hide RecoverHallucinatedTool, FirstOf, HasKind;
    RecoveredKind(c, p, Intent);
  }

  lemma WithIntentKeepsFinal(c: Catalog, p: Proposal)
    ensures FirstOf(WithIntent(Recovered(c, p.nodes)), Final).Some? <==> HasKind(p, Final)
  {
    hide HasKind, Recovered;
    RecoveredKind(c, p, Final);
    var recovered := Recovered(c, p.nodes);
    assert ([ROOT_PROMPT] + recovered)[1..] == recovered;
  }

  lemma BodyBecomes(c: Catalog, n: NodeBody)
    ensures Becomes(c, n, CanonicalBody(c, RecoverHallucinatedTool(c, n)))
  {
    var m := RecoverHallucinatedTool(c, n);
    ExecutesExactly(c, n);
    HasPortsExactly(c, m);
    RecoveredPorts(c, n);
    RecoveredSchemas(c, n);
    CanonicalKeeps(c, m);
  }

  lemma CanonicalKeeps(c: Catalog, m: NodeBody)
    ensures var b := CanonicalBody(c, m);
      && b.name == m.name && b.metadata == m.metadata["proposal_name" := m.name] && b.expansion == m.expansion
  {
    hide CanonicalFields, DeclaredPorts, WithDefaultPort;
  }

  lemma RecoveredPorts(c: Catalog, n: NodeBody)
    requires HasPorts(c, RecoverHallucinatedTool(c, n), CanonicalBody(c, RecoverHallucinatedTool(c, n)))
    ensures HasPorts(c, n, CanonicalBody(c, RecoverHallucinatedTool(c, n)))
  {
    hide CanonicalBody, PortsOf;
  }

  lemma RecoveredSchemas(c: Catalog, n: NodeBody)
    ensures var b := CanonicalBody(c, RecoverHallucinatedTool(c, n));
      && InputOf(c, n, b.kind, Entry(b.execution, "tool"), b.inputSchema)
      && OutputOf(c, n, b.kind, Entry(b.execution, "tool"), b.outputSchema)
  {
    hide Keeps, DeclaredPorts, WithDefaultPort, ToolOf, Chooses, DeclaredSchema;
    SchemasExactly(c, RecoverHallucinatedTool(c, n));
  }

  /** Every proposed node keeps its place, name, metadata and request; what it
      executes, its schemas and its ports are as said above. */
  lemma ProposedNodeBecomes(c: Catalog, p: Proposal, prompt: string, dryRun: bool, nextId: nat, j: nat)
    requires j < |p.nodes|
    ensures var nodes := Normalized(c, p, prompt, dryRun, nextId).nodes;
      && |nodes| == Shift(p) + |p.nodes| + (if HasKind(p, Final) then 0 else 1)
      && Becomes(c, p.nodes[j], nodes[Shift(p) + j].body)
      && nodes[Shift(p) + j].id == if dryRun then NamedId(p.nodes[j].name) else FreshId(nextId + Shift(p) + j)
  {
    hide Becomes, Completed, Canonical, EdgesFor, NamesOf, HasKind, Shift;
    var bodies := Completed(c, p).nodes;
    CompletedExactly(c, p);
    RecoveredKind(c, p, Intent);
    NodesAre(c, bodies, InjectedPrompt(c, p, prompt), dryRun, nextId);
    BodyBecomes(c, p.nodes[j]);
    PlacedUnstamped(c, p, prompt, dryRun, nextId, j);
  }

  lemma PlacedUnstamped(c: Catalog, p: Proposal, prompt: string, dryRun: bool, nextId: nat, j: nat)
    requires j < |p.nodes|
    ensures var n := RecoverHallucinatedTool(c, p.nodes[j]);
      NodeAt(c, n, Shift(p) + j, InjectedPrompt(c, p, prompt), dryRun, nextId)
        == Node(if dryRun then NamedId(p.nodes[j].name) else FreshId(nextId + Shift(p) + j), CanonicalBody(c, n))
  {
    hide CanonicalBody, Recovered, HasKind, FirstOf;
    RecoveredKind(c, p, Intent);
  }

  /** The injected nodes: the user's prompt first, a final last. */
  lemma InjectedNodes(c: Catalog, p: Proposal, prompt: string, dryRun: bool, nextId: nat)
    ensures var nodes := Normalized(c, p, prompt, dryRun, nextId).nodes;
      && |nodes| == Shift(p) + |p.nodes| + (if HasKind(p, Final) then 0 else 1)
      && (!HasKind(p, Intent) ==>
            && nodes[0].body.kind == Intent && nodes[0].body.name == "root_prompt"
            && nodes[0].body.outputSchema == Some("RawText")
            && "prompt" in nodes[0].body.metadata && nodes[0].body.metadata["prompt"] == prompt)
      && (!HasKind(p, Final) ==>
            && nodes[|nodes| - 1].body.kind == Final && nodes[|nodes| - 1].body.name == "final")
  {
    hide Completed, Canonical, EdgesFor, NamesOf, HasKind, DeclaredPorts, WithDefaultPort, Recovered;
    var bodies := Completed(c, p).nodes;
    CompletedExactly(c, p);
    RecoveredKind(c, p, Intent);
    NodesAre(c, bodies, InjectedPrompt(c, p, prompt), dryRun, nextId);
  }
}
