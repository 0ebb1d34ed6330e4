// The intermediate representation: nodes and edges collected from the parsed documents, sorted, printed
// canonically and hashed.

module IrNodes {
  import opened JsonValue
  import opened Js
  import opened IrRecipes

  // ---- the object literals ----

  const DOMAIN_NODE := [
    Binding("sourceFile", Lit("00_protocol-manifest.yaml")),
    Binding("sourceRef", Name),
    Binding("version", Either(At(At(Doc, "protocol"), "version"), Lit("1.0.0"))),
    Binding("constitutionalRefs", EmptyList),
    Binding("name", Name),
    Binding("description", Either(At(AtName(At(Doc, "domains")), "description"), Lit(""))),
    Binding("entities", EmptyList),
    Binding("priority", Either(At(AtName(At(Doc, "domains")), "priority"), Zero)),
    Binding("layer", Either(At(AtName(At(Doc, "domains")), "layer"), Lit("L1")))]

  const ENTITY_REF := Glue(Owner, Glue(Lit("."), Name))

  const ENTITY_NODE := [
    Binding("sourceFile", Lit("02_domain-model.yaml")),
    Binding("sourceRef", ENTITY_REF),
    Binding("version", Lit("1.0.0")),
    Binding("constitutionalRefs", EmptyList),
    Binding("domain", Owner),
    Binding("entityName", Name),
    Binding("attributes", Either(At(Self, "attributes"), EmptyObject))]

  const COMMAND_DOMAIN := Default(At(Self, "source_domain"), Head(Name))

  const COMMAND_EVENTS := Spread(Either(At(At(Self, "resulting_events"), "success"), EmptyList),
                                 Either(At(At(Self, "resulting_events"), "failure"), EmptyList))

  const REQUIRED_CAPABILITY := At(At(Self, "authorization_requirements"), "capability")

  const COMMAND_NODE := [
    Binding("sourceFile", Lit("03_command-catalog.yaml")),
    Binding("sourceRef", Name),
    Binding("version", Either(At(Self, "version"), Lit("1.0.0"))),
    Binding("constitutionalRefs", Either(At(At(Self, "constitutional_gates"), "invariants"), EmptyList)),
    Binding("domain", COMMAND_DOMAIN),
    Binding("aggregate", Either(At(Self, "aggregate"), Lit(""))),
    Binding("requiredPayload", Either(At(Self, "required_payload"), EmptyList)),
    Binding("resultingEvents", COMMAND_EVENTS),
    Binding("capability", Either(Either(REQUIRED_CAPABILITY, At(At(Self, "issuer"), "minimum_capability")), Lit(""))),
    Binding("gates", Either(At(Self, "constitutional_gates"), EmptyObject))]

  const EVENT_NODE := [
    Binding("sourceFile", Lit("04_event-catalog.yaml")),
    Binding("sourceRef", Name),
    Binding("version", Either(At(Self, "version"), Lit("1.0.0"))),
    Binding("constitutionalRefs", EmptyList),
    Binding("domain", Either(At(Self, "source_domain"), Head(Name))),
    Binding("aggregate", Either(At(Self, "aggregate"), Lit(""))),
    Binding("dataFields", Either(At(Self, "data_fields"), EmptyObject)),
    Binding("envelope", At(Doc, "event_envelope"))]

  const CAPABILITY_NODE := [
    Binding("sourceFile", Lit("08_security-capabilities.yaml")),
    Binding("sourceRef", At(Self, "capability_id")),
    Binding("version", Lit("1.0.0")),
    Binding("constitutionalRefs", ListOf(At(Self, "constitutional_constraint"))),
    Binding("capabilityId", At(Self, "capability_id")),
    Binding("domain", Lower(Either(At(Self, "domain"), Lit("")))),
    Binding("resourceType", Either(At(Self, "resource_type"), Lit(""))),
    Binding("action", Either(At(Self, "action"), Lit(""))),
    Binding("riskLevel", Either(At(Self, "risk_level"), Lit(""))),
    Binding("scopePattern", Either(At(Self, "scope_pattern"), Lit("")))]

  const STEP_DOMAIN := Either(At(Self, "target_domain"), Either(At(Self, "domain"), Head(At(Self, "command"))))

  const SAGA_STEP := [
    Binding("step", NumberOr(At(Self, "step"))),
    Binding("step_id", Either(At(Self, "step_id"), Glue(Lit("STEP-"), Ordinal))),
    Binding("name", Either(At(Self, "step_name"), Either(At(Self, "name"), Glue(Lit("step_"), Ordinal)))),
    Binding("step_type", Either(At(Self, "step_type"), Lit("PARTICIPANT"))),
    Binding("command", Default(At(Self, "command"), NullValue)),
    Binding("domain", STEP_DOMAIN),
    Binding("target_domain", STEP_DOMAIN),
    Binding("compensation_command",
            Default(At(Self, "compensation_command"), Default(At(Self, "compensation"), NullValue))),
    Binding("required_capability", Either(At(Self, "required_capability"), Lit("system.internal"))),
    Binding("required_scope", Either(At(Self, "required_scope"), Lit("*"))),
    Binding("payload_mapping", Either(At(Self, "payload_mapping"), EmptyObject)),
    Binding("compensation_payload_mapping", Either(At(Self, "compensation_payload_mapping"), EmptyObject)),
    Binding("timeout_ms", Number(Default(At(Self, "timeout_ms"), Zero))),
    Binding("timeout_seconds", Seconds(Default(At(Self, "timeout_ms"), Zero))),
    Binding("on_timeout", Either(At(Self, "on_timeout"), Either(At(Self, "on_failure"), Lit("COMPENSATE")))),
    Binding("on_failure", Either(At(Self, "on_failure"), Lit("COMPENSATE"))),
    Binding("retry_strategy", Either(At(Self, "retry_strategy"), EmptyObject)),
    Binding("produces_events", Either(At(Self, "produces_events"), EmptyList))]

  const SAGA_STRATEGY :=
    Either(At(Self, "compensation_strategy"), Either(At(Self, "compensation_model"), Lit("SEQUENTIAL_REVERSE")))

  const SAGA_NODE := [
    Binding("sourceFile", Lit("09_saga-orchestration.yaml")),
    Binding("sourceRef", At(Self, "saga_id")),
    Binding("version", Either(At(Self, "version"), Lit("1.0.0"))),
    Binding("constitutionalRefs", Either(At(Self, "constitutional_gates"), EmptyList)),
    Binding("saga_id", At(Self, "saga_id")),
    Binding("domain", Either(At(Self, "domain"), Lit(""))),
    Binding("trigger", Either(At(Self, "trigger"), EmptyObject)),
    Binding("compensation_strategy", SAGA_STRATEGY),
    Binding("compensation_model", SAGA_STRATEGY),
    Binding("final_states", Either(At(Self, "final_states"), EmptyList)),
    Binding("steps", MapItems(Either(At(Self, "steps"), EmptyList), SAGA_STEP)),
    Binding("timeout_policy", Either(At(Self, "timeout_policy"), EmptyObject)),
    Binding("description", Either(At(Self, "description"), Lit("")))]

  const MACHINE_NODE := [
    Binding("sourceFile", Lit("05_state-machines.yaml")),
    Binding("sourceRef", Name),
    Binding("version", Either(At(Self, "version"), Lit("1.0.0"))),
    Binding("constitutionalRefs", Either(At(Self, "constitutional_refs"), EmptyList)),
    Binding("domain", At(Self, "domain")),
    Binding("aggregate", At(Self, "aggregate")),
    Binding("initial_state", At(Self, "initial_state")),
    Binding("initialState", At(Self, "initial_state")),
    Binding("final_states", Either(At(Self, "final_states"), EmptyList)),
    Binding("finalStates", Either(At(Self, "final_states"), EmptyList)),
    Binding("states", Either(At(Self, "states"), EmptyObject)),
    Binding("transitions", Either(At(Self, "transitions"), EmptyObject)),
    Binding("description", Either(At(Self, "description"), Lit("")))]

  // ---- what one definition contributes ----

  /** A node; its identifier and type are set last here, which changes the order of keys only. */
  datatype Node = Node(id: string, kind: string, body: seq<Field>)

  datatype Edge = Edge(kind: string, from: string, to: string)

  datatype Piece = Piece(nodes: seq<Node>, edges: seq<Edge>)

  const NOTHING := Piece([], [])

  function NodeJson(n: Node): Json {
    Obj(Put(Put(Literal(n.body), "type", Str(n.kind)), "id", Str(n.id)))
  }

  function EdgeJson(e: Edge): Json {
    Obj([Field("from", Str(e.from)), Field("to", Str(e.to)), Field("type", Str(e.kind))])
  }

  function NodeOf(id: string, kind: string, recipe: seq<Binding>, env: Env, num: Numbers): Outcome<Node> {
    var body :- EvalAll(recipe, env, num);
    Returns(Node(id, kind, body))
  }

  function DomainPiece(name: string, manifest: Json, num: Numbers): Outcome<Piece> {
    var node :- NodeOf("domain:" + name, "domain", DOMAIN_NODE, Env(name, "", Null, manifest, 0), num);
    Returns(Piece([node], []))
  }

  function EntityPiece(domain: string, f: Field, num: Numbers): Outcome<Piece> {
    if Nullish(f.value) then Throws
    else
      var id := "entity:" + domain + "." + f.key;
      var node :- NodeOf(id, "entity", ENTITY_NODE, Env(f.key, domain, f.value, Null, 0), num);
      Returns(Piece([node], [Edge("domain_contains_entity", "domain:" + domain, id)]))
  }

  function EventEdges(from: string, events: seq<Json>): seq<Edge> {
    seq(|events|, i requires 0 <= i < |events| => Edge("command_produces_event", from, "event:" + StringOf(events[i])))
  }

  /** What a command contributes, from what its expressions evaluate to. */
  function CommandFrom(id: string, node: Outcome<Node>, domain: Outcome<Json>, events: Outcome<seq<Json>>,
                       capability: Outcome<Json>): Outcome<Piece> {
    var d :- domain;
    var n :- node;
    var es :- events;
    var c :- capability;
    Returns(Piece([n],
                  [Edge("entity_accepts_command", "domain:" + StringOf(d), id)]
                  + EventEdges(id, es)
                  + if Falsy(c) then [] else [Edge("command_requires_capability", id, "capability:" + StringOf(c))]))
  }

  function CommandWith(f: Field, recipe: seq<Binding>, domain: Expr, events: Expr, capability: Expr,
                       num: Numbers): Outcome<Piece> {
    if Nullish(f.value) then Throws
    else
      var id, env := "command:" + f.key, Env(f.key, "", f.value, Null, 0);
      CommandFrom(id, NodeOf(id, "command", recipe, env, num), Eval(domain, env, num),
                  Elements(Eval(events, env, num)), Eval(capability, env, num))
  }

  function CommandPiece(f: Field, num: Numbers): Outcome<Piece> {
    CommandWith(f, COMMAND_NODE, COMMAND_DOMAIN, COMMAND_EVENTS, REQUIRED_CAPABILITY, num)
  }

  function EventPiece(f: Field, catalog: Json, num: Numbers): Outcome<Piece> {
    if Nullish(f.value) then Throws
    else
      var node :- NodeOf("event:" + f.key, "event", EVENT_NODE, Env(f.key, "", f.value, catalog, 0), num);
      Returns(Piece([node], []))
  }

  function CapabilityPiece(f: Field, num: Numbers): Outcome<Piece> {
    if Nullish(f.value) then Throws
    else
      var id := "capability:" + StringOf(Get(f.value, "capability_id"));
      var node :- NodeOf(id, "capability", CAPABILITY_NODE, Env("", "", f.value, Null, 0), num);
      Returns(Piece([node], []))
  }

  function SagaFrom(id: string, node: Outcome<Node>, domain: Json): Outcome<Piece> {
    var n :- node;
    Returns(Piece([n], if Falsy(domain) then [] else [Edge("domain_defines_saga", "domain:" + StringOf(domain), id)]))
  }

  function SagaWith(f: Field, recipe: seq<Binding>, num: Numbers): Outcome<Piece> {
    if Nullish(f.value) then Throws
    else if Falsy(Get(f.value, "saga_id")) then Returns(NOTHING)
    else
      var id := "saga:" + StringOf(Get(f.value, "saga_id"));
      SagaFrom(id, NodeOf(id, "saga", recipe, Env("", "", f.value, Null, 0), num), Get(f.value, "domain"))
  }

  function SagaPiece(f: Field, num: Numbers): Outcome<Piece> {
    SagaWith(f, SAGA_NODE, num)
  }

  function MachinePiece(f: Field, num: Numbers): Outcome<Piece> {
    if Nullish(f.value) then Throws
    else
      var id := "state_machine:" + f.key;
      var node :- NodeOf(id, "state_machine", MACHINE_NODE, Env(f.key, "", f.value, Null, 0), num);
      Returns(Piece([node], [Edge("state_machine_governs_entity", "domain:" + StringOf(Get(f.value, "domain")), id)]))
  }
}

module IrBuilder {
  import opened Text
  import opened Sorting
  import opened JsonValue
  import opened JsonText
  import opened Js
  import opened IrRecipes
  import opened IrNodes

  // ---- the loops ----

  type Visit = Field -> Outcome<Piece>

  function Append(a: Piece, b: Piece): Piece {
    Piece(a.nodes + b.nodes, a.edges + b.edges)
  }

  function Join2(p: Outcome<Piece>, q: Outcome<Piece>): Outcome<Piece> {
    var a :- p;
    var b :- q;
    Returns(Append(a, b))
  }

  /** Everything the entries contribute, in order. */
  function Collect(visit: Visit, fs: seq<Field>): Outcome<Piece> {
    if fs == [] then Returns(NOTHING) else Join2(visit(fs[0]), Collect(visit, fs[1..]))
  }

  method CollectLoop(visit: Visit, fs: seq<Field>) returns (r: Outcome<Piece>)
    ensures r == Collect(visit, fs)
  {
    var acc := NOTHING;
    assert fs[0..] == fs;
    JoinNothing(Collect(visit, fs));
    for i := 0 to |fs|
      invariant Join2(Returns(acc), Collect(visit, fs[i..])) == Collect(visit, fs)
    {
      var piece := visit(fs[i]);
      assert fs[i..][1..] == fs[i + 1..];
      if piece.Throws? { return Throws; }
      JoinAssociates(acc, piece.value, Collect(visit, fs[i + 1..]));
      acc := Append(acc, piece.value);
    }
    JoinNothing(Returns(acc));
    return Returns(acc);
  }

  lemma JoinNothing(p: Outcome<Piece>)
    ensures Join2(Returns(NOTHING), p) == p && Join2(p, Returns(NOTHING)) == p
  {
    if p.Returns? {
      assert [] + p.value.nodes == p.value.nodes == p.value.nodes + [];
      assert [] + p.value.edges == p.value.edges == p.value.edges + [];
    }
  }

  lemma JoinAssociates(a: Piece, b: Piece, r: Outcome<Piece>)
    ensures Join2(Returns(a), Join2(Returns(b), r)) == Join2(Returns(Append(a, b)), r)
  {
    if r.Returns? {
      assert a.nodes + (b.nodes + r.value.nodes) == a.nodes + b.nodes + r.value.nodes;
      assert a.edges + (b.edges + r.value.edges) == a.edges + b.edges + r.value.edges;
    }
  }

  /** The documents the builder reads. */
  datatype Docs = Docs(
    manifest: Json, domainModel: Json, commands: Json, events: Json, capabilities: Json, sagas: Json, machines: Json)

  function ByKey(): (Field, Field) -> bool {
    (a: Field, b: Field) => TextLess(a.key, b.key)
  }

  /** The entries of `doc?.key`, if there are any. */
  function EntriesAt(doc: Json, key: string): seq<Field> {
    if Falsy(Get(doc, key)) then [] else ObjectEntries(Get(doc, key))
  }

  /** The elements of `doc?.key` as entries without a name; iterating over anything but a list throws. */
  function ElementsAt(doc: Json, key: string): Outcome<seq<Field>> {
    if Falsy(Get(doc, key)) then Returns([])
    else
      var items :- Iterate(Get(doc, key));
      Returns(Nameless(items))
  }

  function Nameless(items: seq<Json>): (r: seq<Field>)
    ensures |r| == |items| && forall i :: 0 <= i < |items| ==> r[i] == Field("", items[i])
  {
    seq(|items|, i requires 0 <= i < |items| => Field("", items[i]))
  }

  /** `Array.isArray(v) ? v : []` */
  function ListOrNone(v: Json): seq<Json> {
    if v.Arr? then v.items else []
  }

  const DEFAULT_DOMAINS :=
    ["vault", "ledger", "treasury", "payment", "identity", "policy", "agent", "governance", "intent"]

  function DefaultEntries(): seq<Field> {
    seq(|DEFAULT_DOMAINS|, i requires 0 <= i < |DEFAULT_DOMAINS| => Field(DEFAULT_DOMAINS[i], Null))
  }

  function UnsortedDomains(manifest: Json): seq<Field> {
    var domains := Get(manifest, "domains");
    if Falsy(domains) then DefaultEntries() else ObjectEntries(domains)
  }

  /** The domains, of which only the names are used, in order. */
  function DomainEntries(manifest: Json): seq<Field> {
    Sort(UnsortedDomains(manifest), ByKey())
  }

  function Domains(manifest: Json, num: Numbers): Visit {
    (f: Field) => DomainPiece(f.key, manifest, num)
  }

  function Entities(domain: string, num: Numbers): Visit {
    (f: Field) => EntityPiece(domain, f, num)
  }

  function DomainEntities(num: Numbers): Visit {
    (f: Field) =>
      if Nullish(f.value) then Throws
      else Collect(Entities(f.key, num), EntriesAt(f.value, "entities"))
  }

  function Commands(num: Numbers): Visit {
    (f: Field) => CommandPiece(f, num)
  }

  function Events(catalog: Json, num: Numbers): Visit {
    (f: Field) => EventPiece(f, catalog, num)
  }

  function Capabilities(num: Numbers): Visit {
    (f: Field) => CapabilityPiece(f, num)
  }

  function Sagas(num: Numbers): Visit {
    (f: Field) => SagaPiece(f, num)
  }

  function Machines(num: Numbers): Visit {
    (f: Field) => MachinePiece(f, num)
  }

  function SagaEntries(sagas: Json): seq<Field> {
    Nameless(ListOrNone(Get(sagas, "sagas")) + ListOrNone(Get(sagas, "saga_templates")))
  }

  function CapabilityPieces(doc: Json, num: Numbers): Outcome<Piece> {
    var caps :- ElementsAt(doc, "capabilities");
    Collect(Capabilities(num), caps)
  }

  /** Everything that the documents contribute, loop by loop. */
  function Gather(d: Docs, num: Numbers): Outcome<Piece> {
    Join2(Collect(Domains(d.manifest, num), DomainEntries(d.manifest)),
    Join2(Collect(DomainEntities(num), EntriesAt(d.domainModel, "domains")),
    Join2(Collect(Commands(num), Sort(EntriesAt(d.commands, "commands"), ByKey())),
    Join2(Collect(Events(d.events, num), Sort(EntriesAt(d.events, "events"), ByKey())),
    Join2(CapabilityPieces(d.capabilities, num),
    Join2(Collect(Sagas(num), SagaEntries(d.sagas)),
          Collect(Machines(num), EntriesAt(d.machines, "state_machines"))))))))
  }

  // ---- sorting and hashing ----

  type Collation = (string, string) -> bool

  function ById(less: Collation): (Node, Node) -> bool {
    (a: Node, b: Node) => less(a.id, b.id)
  }

  /** By type, then source, then target. */
  function ByEnds(less: Collation): (Edge, Edge) -> bool {
    (a: Edge, b: Edge) =>
      if a.kind != b.kind then less(a.kind, b.kind)
      else if a.from != b.from then less(a.from, b.from)
      else less(a.to, b.to)
  }

  datatype Ir = Ir(nodes: seq<Node>, edges: seq<Edge>, protocolVersion: Json)

  function NodesJson(nodes: seq<Node>): (r: seq<Json>)
    ensures |r| == |nodes| && forall i :: 0 <= i < |nodes| ==> r[i] == NodeJson(nodes[i])
  {
    seq(|nodes|, i requires 0 <= i < |nodes| => NodeJson(nodes[i]))
  }

  function EdgesJson(edges: seq<Edge>): (r: seq<Json>)
    ensures |r| == |edges| && forall i :: 0 <= i < |edges| ==> r[i] == EdgeJson(edges[i])
  {
    seq(|edges|, i requires 0 <= i < |edges| => EdgeJson(edges[i]))
  }

  const COMPILER_VERSION := "0.6.0"

  function IrJson(ir: Ir): Json {
    Obj(Literal([Field("nodes", Arr(NodesJson(ir.nodes))), Field("edges", Arr(EdgesJson(ir.edges))),
                Field("protocolVersion", ir.protocolVersion), Field("compilerVersion", Str(COMPILER_VERSION))]))
  }

  /** The hashed text. */
  function IrText(ir: Ir): string {
    var c := Canonical(IrJson(ir));
    if c.Some? then c.value else ""
  }

  function BuildIR(d: Docs, protocolVersion: Json, num: Numbers, less: Collation): Outcome<Ir> {
    var all :- Gather(d, num);
    Returns(Ir(Sort(all.nodes, ById(less)), Sort(all.edges, ByEnds(less)), protocolVersion))
  }

  /** The builder as it is written: seven loops that push nodes and edges, and then the two sorts. */
  method BuildIRLoop(d: Docs, protocolVersion: Json, num: Numbers, less: Collation) returns (r: Outcome<Ir>)
    ensures r == BuildIR(d, protocolVersion, num, less)
  {
    var machines := CollectLoop(Machines(num), EntriesAt(d.machines, "state_machines"));
    var sagas := CollectLoop(Sagas(num), SagaEntries(d.sagas));
    var capabilities: Outcome<Piece> := Throws;
    var caps := ElementsAt(d.capabilities, "capabilities");
    if caps.Returns? { capabilities := CollectLoop(Capabilities(num), caps.value); }
    var events := CollectLoop(Events(d.events, num), Sort(EntriesAt(d.events, "events"), ByKey()));
    var commands := CollectLoop(Commands(num), Sort(EntriesAt(d.commands, "commands"), ByKey()));
    var entities := CollectLoop(DomainEntities(num), EntriesAt(d.domainModel, "domains"));
    var domains := CollectLoop(Domains(d.manifest, num), DomainEntries(d.manifest));
    var rest := Join2(events, Join2(capabilities, Join2(sagas, machines)));
    var all := Join2(domains, Join2(entities, Join2(commands, rest)));
    if all.Throws? { return Throws; }
    return Returns(Ir(Sort(all.value.nodes, ById(less)), Sort(all.value.edges, ByEnds(less)), protocolVersion));
  }

  // ---- the order of the entries does not matter ----

  /** The same nodes and edges, in any order. */
  ghost predicate Shuffled(p: Outcome<Piece>, q: Outcome<Piece>) {
    (p.Throws? <==> q.Throws?)
    && (p.Returns? ==>
          multiset(p.value.nodes) == multiset(q.value.nodes) && multiset(p.value.edges) == multiset(q.value.edges))
  }

  lemma JoinSwaps(a: Outcome<Piece>, b: Outcome<Piece>, c: Outcome<Piece>, d: Outcome<Piece>)
    requires Shuffled(c, Join2(a, d))
    ensures Shuffled(Join2(b, c), Join2(a, Join2(b, d)))
  {
  }

  lemma JoinKeeps(a: Outcome<Piece>, c: Outcome<Piece>, d: Outcome<Piece>)
    requires Shuffled(c, d)
    ensures Shuffled(Join2(a, c), Join2(a, d))
  {
  }

  lemma {:induction false} CollectInsert(visit: Visit, x: Field, fs: seq<Field>, lt: (Field, Field) -> bool)
    ensures Shuffled(Collect(visit, Insert(x, fs, lt)), Join2(visit(x), Collect(visit, fs)))
  {
    if fs == [] || !lt(fs[0], x) {
      assert ([x] + fs)[1..] == fs;
    } else {
      CollectInsert(visit, x, fs[1..], lt);
      assert ([fs[0]] + Insert(x, fs[1..], lt))[1..] == Insert(x, fs[1..], lt);
      JoinSwaps(visit(x), visit(fs[0]), Collect(visit, Insert(x, fs[1..], lt)), Collect(visit, fs[1..]));
    }
  }

  /** Visiting sorted entries yields the same nodes and edges. */
  lemma {:induction false} CollectSort(visit: Visit, fs: seq<Field>, lt: (Field, Field) -> bool)
    ensures Shuffled(Collect(visit, Sort(fs, lt)), Collect(visit, fs))
  {
    if fs != [] {
      CollectSort(visit, fs[1..], lt);
      CollectInsert(visit, fs[0], Sort(fs[1..], lt), lt);
      JoinKeeps(visit(fs[0]), Collect(visit, Sort(fs[1..], lt)), Collect(visit, fs[1..]));
      ShuffledTransitive(Collect(visit, Sort(fs, lt)), Join2(visit(fs[0]), Collect(visit, Sort(fs[1..], lt))),
                         Collect(visit, fs));
    }
  }

  lemma ShuffledTransitive(p: Outcome<Piece>, q: Outcome<Piece>, r: Outcome<Piece>)
    requires Shuffled(p, q) && Shuffled(q, r)
    ensures Shuffled(p, r)
  {
  }
}
