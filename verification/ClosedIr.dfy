// What the silence of the reference checks guarantees about the edges of the intermediate representation.

module ClosedIr {
  import opened Text
  import opened Sorting
  import opened JsonValue
  import opened Js
  import opened IrRecipes
  import opened IrNodes
  import opened IrBuilder
  import opened ProtocolFiles
  import opened Validate

  // ---- where nodes and edges come from ----

  lemma {:induction false} EdgeComesFrom(visit: Visit, fs: seq<Field>, e: Edge)
    requires Collect(visit, fs).Returns? && e in Collect(visit, fs).value.edges
    ensures exists i :: 0 <= i < |fs| && visit(fs[i]).Returns? && e in visit(fs[i]).value.edges
  {
    if e in visit(fs[0]).value.edges {
    } else {
      EdgeComesFrom(visit, fs[1..], e);
      var i :| 0 <= i < |fs[1..]| && visit(fs[1..][i]).Returns? && e in visit(fs[1..][i]).value.edges;
      assert fs[i + 1] == fs[1..][i];
    }
  }

  lemma {:induction false} NodeComesFrom(visit: Visit, fs: seq<Field>, n: Node)
    requires Collect(visit, fs).Returns? && n in Collect(visit, fs).value.nodes
    ensures exists i :: 0 <= i < |fs| && visit(fs[i]).Returns? && n in visit(fs[i]).value.nodes
  {
    if n in visit(fs[0]).value.nodes {
    } else {
      NodeComesFrom(visit, fs[1..], n);
      var i :| 0 <= i < |fs[1..]| && visit(fs[1..][i]).Returns? && n in visit(fs[1..][i]).value.nodes;
      assert fs[i + 1] == fs[1..][i];
    }
  }

  lemma {:induction false} EntryContributes(visit: Visit, fs: seq<Field>, i: nat)
    requires Collect(visit, fs).Returns? && i < |fs|
    ensures visit(fs[i]).Returns?
    ensures forall n :: n in visit(fs[i]).value.nodes ==> n in Collect(visit, fs).value.nodes
    ensures forall e :: e in visit(fs[i]).value.edges ==> e in Collect(visit, fs).value.edges
  {
    if i > 0 { EntryContributes(visit, fs[1..], i - 1); }
  }

  lemma SortedEntries(fs: seq<Field>)
    ensures forall f :: f in Sort(fs, ByKey()) <==> f in fs
  {
    SortPermutes(fs, ByKey());
    forall f ensures f in Sort(fs, ByKey()) <==> f in fs {
      assert f in multiset(Sort(fs, ByKey())) <==> f in multiset(fs);
    }
  }

  // ---- the parts of the graph ----

  function CommandPart(d: Docs, num: Numbers): Outcome<Piece> {
    Collect(Commands(num), Sort(EntriesAt(d.commands, "commands"), ByKey()))
  }

  function EventPart(d: Docs, num: Numbers): Outcome<Piece> {
    Collect(Events(d.events, num), Sort(EntriesAt(d.events, "events"), ByKey()))
  }

  const PRODUCES := "command_produces_event"
  const REQUIRES := "command_requires_capability"

  ghost predicate OtherEdges(p: Piece) {
    forall e :: e in p.edges ==> e.kind != PRODUCES && e.kind != REQUIRES
  }

  lemma OtherKinds()
    ensures "domain_contains_entity" != PRODUCES && "domain_contains_entity" != REQUIRES
    ensures "domain_defines_saga" != PRODUCES && "domain_defines_saga" != REQUIRES
    ensures "state_machine_governs_entity" != PRODUCES && "state_machine_governs_entity" != REQUIRES
    ensures "entity_accepts_command" != PRODUCES && "entity_accepts_command" != REQUIRES
    ensures PRODUCES != REQUIRES
  {
    assert PRODUCES[0] == 'c' && REQUIRES[0] == 'c' && PRODUCES[8] == 'p' && REQUIRES[8] == 'r';
    assert "domain_contains_entity"[0] == 'd' && "domain_defines_saga"[0] == 'd';
    assert "state_machine_governs_entity"[0] == 's' && "entity_accepts_command"[0] == 'e';
  }

  ghost predicate Other(p: Outcome<Piece>) {
    p.Returns? ==> OtherEdges(p.value)
  }

  lemma CollectOther(visit: Visit, fs: seq<Field>)
    requires forall f :: Other(visit(f))
    ensures Other(Collect(visit, fs))
  {
    if Collect(visit, fs).Returns? {
      forall e | e in Collect(visit, fs).value.edges ensures e.kind != PRODUCES && e.kind != REQUIRES {
        EdgeComesFrom(visit, fs, e);
        var i :| 0 <= i < |fs| && visit(fs[i]).Returns? && e in visit(fs[i]).value.edges;
        assert Other(visit(fs[i]));
      }
    }
  }

  lemma DomainsOther(manifest: Json, fs: seq<Field>, num: Numbers)
    ensures Other(Collect(Domains(manifest, num), fs))
  {
    forall f ensures Other(Domains(manifest, num)(f)) { assert Other(DomainPiece(f.key, manifest, num)); }
    CollectOther(Domains(manifest, num), fs);
  }

  lemma EntityOther(domain: string, f: Field, num: Numbers)
    ensures Other(EntityPiece(domain, f, num))
  {
    OtherKinds();
  }

  lemma EntitiesOther(fs: seq<Field>, num: Numbers)
    ensures Other(Collect(DomainEntities(num), fs))
  {
    forall f ensures Other(DomainEntities(num)(f)) {
      forall g ensures Other(Entities(f.key, num)(g)) { EntityOther(f.key, g, num); }
      CollectOther(Entities(f.key, num), EntriesAt(f.value, "entities"));
    }
    CollectOther(DomainEntities(num), fs);
  }

  lemma EventsOther(catalog: Json, fs: seq<Field>, num: Numbers)
    ensures Other(Collect(Events(catalog, num), fs))
  {
    forall f ensures Other(Events(catalog, num)(f)) { assert Other(EventPiece(f, catalog, num)); }
    CollectOther(Events(catalog, num), fs);
  }

  lemma CapabilitiesOther(doc: Json, num: Numbers)
    ensures Other(CapabilityPieces(doc, num))
  {
    if ElementsAt(doc, "capabilities").Returns? {
      forall f ensures Other(Capabilities(num)(f)) { assert Other(CapabilityPiece(f, num)); }
      CollectOther(Capabilities(num), ElementsAt(doc, "capabilities").value);
    }
  }

  lemma SagaOther(f: Field, num: Numbers)
    ensures Other(SagaPiece(f, num))
  {
    OtherKinds();
  }

  lemma SagasOther(fs: seq<Field>, num: Numbers)
    ensures Other(Collect(Sagas(num), fs))
  {
    forall f ensures Other(Sagas(num)(f)) { SagaOther(f, num); }
    CollectOther(Sagas(num), fs);
  }

  lemma MachineOther(f: Field, num: Numbers)
    ensures Other(MachinePiece(f, num))
  {
    OtherKinds();
  }

  lemma MachinesOther(fs: seq<Field>, num: Numbers)
    ensures Other(Collect(Machines(num), fs))
  {
    forall f ensures Other(Machines(num)(f)) { MachineOther(f, num); }
    CollectOther(Machines(num), fs);
  }

  /** The parts all succeed; the nodes of a part are in the graph; the two kinds of edges come from commands. */
  lemma PartsOf(d: Docs, num: Numbers)
    requires Gather(d, num).Returns?
    ensures CommandPart(d, num).Returns? && EventPart(d, num).Returns? && CapabilityPieces(d.capabilities, num).Returns?
    ensures forall n :: n in EventPart(d, num).value.nodes ==> n in Gather(d, num).value.nodes
    ensures forall n :: n in CapabilityPieces(d.capabilities, num).value.nodes ==> n in Gather(d, num).value.nodes
    ensures forall e :: e in CommandPart(d, num).value.edges ==> e in Gather(d, num).value.edges
    ensures forall e :: e in Gather(d, num).value.edges && (e.kind == PRODUCES || e.kind == REQUIRES) ==>
      e in CommandPart(d, num).value.edges
  {
    DomainsOther(d.manifest, DomainEntries(d.manifest), num);
    EntitiesOther(EntriesAt(d.domainModel, "domains"), num);
    EventsOther(d.events, Sort(EntriesAt(d.events, "events"), ByKey()), num);
    CapabilitiesOther(d.capabilities, num);
    SagasOther(SagaEntries(d.sagas), num);
    MachinesOther(EntriesAt(d.machines, "state_machines"), num);
    var p1 := Collect(Domains(d.manifest, num), DomainEntries(d.manifest));
    var p2 := Collect(DomainEntities(num), EntriesAt(d.domainModel, "domains"));
    var p3, p4, p5 := CommandPart(d, num), EventPart(d, num), CapabilityPieces(d.capabilities, num);
    var p6 := Collect(Sagas(num), SagaEntries(d.sagas));
    var p7 := Collect(Machines(num), EntriesAt(d.machines, "state_machines"));
    SevenParts(p1, p2, p3, p4, p5, p6, p7);
  }

  lemma SevenParts(p1: Outcome<Piece>, p2: Outcome<Piece>, p3: Outcome<Piece>, p4: Outcome<Piece>, p5: Outcome<Piece>,
                   p6: Outcome<Piece>, p7: Outcome<Piece>)
    requires Join2(p1, Join2(p2, Join2(p3, Join2(p4, Join2(p5, Join2(p6, p7)))))).Returns?
    ensures p1.Returns? && p2.Returns? && p3.Returns? && p4.Returns? && p5.Returns? && p6.Returns? && p7.Returns?
    ensures var all := Join2(p1, Join2(p2, Join2(p3, Join2(p4, Join2(p5, Join2(p6, p7)))))).value;
      && (forall n :: n in all.nodes <==>
            n in p1.value.nodes || n in p2.value.nodes || n in p3.value.nodes || n in p4.value.nodes
            || n in p5.value.nodes
            || n in p6.value.nodes || n in p7.value.nodes)
      && (forall e :: e in all.edges <==>
            e in p1.value.edges || e in p2.value.edges || e in p3.value.edges || e in p4.value.edges
            || e in p5.value.edges
            || e in p6.value.edges || e in p7.value.edges)
  {
  }

  // ---- the edges of a command ----

  /** The events a compiled command is linked to. */
  function LinkedEvents(def: Json): Outcome<seq<Json>> {
    var result := Get(def, "resulting_events");
    var success :- ListAt(result, "success");
    var failure :- ListAt(result, "failure");
    Returns(success + failure)
  }

  const SUCCESS := Either(At(At(Self, "resulting_events"), "success"), EmptyList)
  const FAILURE := Either(At(At(Self, "resulting_events"), "failure"), EmptyList)

  lemma OutcomeList(key: Key, env: Env, num: Numbers)
    ensures Elements(Eval(Either(At(At(Self, "resulting_events"), key), EmptyList), env, num))
         == ListAt(Get(env.self, "resulting_events"), key)
  {
    var list := At(At(Self, "resulting_events"), key);
    assert Eval(At(Self, "resulting_events"), env, num) == Returns(Get(env.self, "resulting_events"));
    assert Eval(list, env, num) == Returns(Get(Get(env.self, "resulting_events"), key));
    assert Eval(Either(list, EmptyList), env, num) == Returns(Or(Get(Get(env.self, "resulting_events"), key), Arr([])));
  }

  lemma CapabilityIs(env: Env, num: Numbers)
    ensures Eval(REQUIRED_CAPABILITY, env, num)
         == Returns(Get(Get(env.self, "authorization_requirements"), "capability"))
  {
    assert Eval(At(Self, "authorization_requirements"), env, num)
        == Returns(Get(env.self, "authorization_requirements"));
  }

  lemma LinkedEventsAre(f: Field, num: Numbers)
    ensures Elements(Eval(COMMAND_EVENTS, Env(f.key, "", f.value, Null, 0), num)) == LinkedEvents(f.value)
    ensures Eval(REQUIRED_CAPABILITY, Env(f.key, "", f.value, Null, 0), num)
         == Returns(Get(Get(f.value, "authorization_requirements"), "capability"))
  {
    var env := Env(f.key, "", f.value, Null, 0);
    var result := Get(f.value, "resulting_events");
    OutcomeList("success", env, num);
    OutcomeList("failure", env, num);
    CapabilityIs(env, num);
    SpreadElements(ListAt(result, "success"), ListAt(result, "failure"));
    assert Eval(Spread(SUCCESS, FAILURE), env, num)
        == SpreadOf(Elements(Eval(SUCCESS, env, num)), Elements(Eval(FAILURE, env, num)));
  }

  lemma SpreadElements(p: Outcome<seq<Json>>, q: Outcome<seq<Json>>)
    ensures Elements(SpreadOf(p, q)) == if p.Returns? && q.Returns? then Returns(p.value + q.value) else Throws
  {
  }

  /** The validator looks at the same lists, and at more. */
  lemma LinkedAreChecked(def: Json, i: nat)
    requires AllEvents(def).Returns? && LinkedEvents(def).Returns? && i < |LinkedEvents(def).value|
    ensures LinkedEvents(def).value[i] in AllEvents(def).value
  {
    var result := Get(def, "resulting_events");
    var checked := Or(result, Obj([]));
    assert Falsy(result) ==> Get(result, "success") == Undef == Get(checked, "success");
    assert Falsy(result) ==> Get(result, "failure") == Undef == Get(checked, "failure");
    var s, f := ListAt(result, "success").value, ListAt(result, "failure").value;
    var c, p := ListAt(checked, "conditional").value, ListAt(def, "produces_events").value;
    assert AllEvents(def).value == s + (f + (c + p));
    if i < |s| { assert (s + (f + (c + p)))[i] == s[i]; } else { assert (s + (f + (c + p)))[i] == f[i - |s|]; }
  }

  lemma CommandEdge(id: string, n: Outcome<Node>, d: Outcome<Json>, es: Outcome<seq<Json>>, c: Outcome<Json>, e: Edge)
    requires CommandFrom(id, n, d, es, c).Returns? && e in CommandFrom(id, n, d, es, c).value.edges
    ensures e.kind == PRODUCES ==>
              exists i :: 0 <= i < |es.value| && e == Edge(PRODUCES, id, "event:" + StringOf(es.value[i]))
    ensures e.kind == REQUIRES ==> !Falsy(c.value) && e == Edge(REQUIRES, id, "capability:" + StringOf(c.value))
  {
    OtherKinds();
    var evs := EventEdges(id, es.value);
    if e in evs {
      var i :| 0 <= i < |evs| && evs[i] == e;
    }
  }

  lemma CommandEdgeBack(id: string, n: Outcome<Node>, d: Outcome<Json>, es: Outcome<seq<Json>>, c: Outcome<Json>,
                        i: nat)
    requires CommandFrom(id, n, d, es, c).Returns? && i < |es.value|
    ensures Edge(PRODUCES, id, "event:" + StringOf(es.value[i])) in CommandFrom(id, n, d, es, c).value.edges
  {
    assert EventEdges(id, es.value)[i] in EventEdges(id, es.value);
  }

  /** The two kinds of edges, traced back to a command of the catalog. */
  lemma EdgeOrigin(d: Docs, num: Numbers, e: Edge) returns (f: Field)
    requires Gather(d, num).Returns? && e in Gather(d, num).value.edges && (e.kind == PRODUCES || e.kind == REQUIRES)
    ensures f in EntriesAt(d.commands, "commands") && !Nullish(f.value) && LinkedEvents(f.value).Returns?
    ensures e.kind == PRODUCES ==>
              exists i :: 0 <= i < |LinkedEvents(f.value).value|
                          && e.to == "event:" + StringOf(LinkedEvents(f.value).value[i])
    ensures e.kind == REQUIRES ==>
              var cap := Get(Get(f.value, "authorization_requirements"), "capability");
              !Falsy(cap) && e.to == "capability:" + StringOf(cap)
  {
    PartsOf(d, num);
    var fs := Sort(EntriesAt(d.commands, "commands"), ByKey());
    EdgeComesFrom(Commands(num), fs, e);
    var k :| 0 <= k < |fs| && Commands(num)(fs[k]).Returns? && e in Commands(num)(fs[k]).value.edges;
    f := fs[k];
    SortedEntries(EntriesAt(d.commands, "commands"));
    assert f in fs;
    TraceCommand(f, COMMAND_NODE, COMMAND_DOMAIN, num, e);
  }

  lemma TraceCommand(f: Field, recipe: seq<Binding>, domain: Expr, num: Numbers, e: Edge)
    requires CommandWith(f, recipe, domain, COMMAND_EVENTS, REQUIRED_CAPABILITY, num).Returns?
    requires e in CommandWith(f, recipe, domain, COMMAND_EVENTS, REQUIRED_CAPABILITY, num).value.edges
    ensures !Nullish(f.value) && LinkedEvents(f.value).Returns?
    ensures e.kind == PRODUCES ==>
              exists i :: 0 <= i < |LinkedEvents(f.value).value|
                          && e.to == "event:" + StringOf(LinkedEvents(f.value).value[i])
    ensures e.kind == REQUIRES ==>
              var cap := Get(Get(f.value, "authorization_requirements"), "capability");
              !Falsy(cap) && e.to == "capability:" + StringOf(cap)
  {
    var id, env := "command:" + f.key, Env(f.key, "", f.value, Null, 0);
    LinkedEventsAre(f, num);
    CommandEdge(id, NodeOf(id, "command", recipe, env, num), Eval(domain, env, num), LinkedEvents(f.value),
                Returns(Get(Get(f.value, "authorization_requirements"), "capability")), e);
  }

  // ---- the nodes they should reach ----

  ghost predicate HasNode(nodes: seq<Node>, kind: string, id: string) {
    exists n :: n in nodes && n.kind == kind && n.id == id
  }

  lemma EventPieceNode(f: Field, catalog: Json, num: Numbers)
    requires EventPiece(f, catalog, num).Returns?
    ensures HasNode(EventPiece(f, catalog, num).value.nodes, "event", "event:" + f.key)
  {
    var n := EventPiece(f, catalog, num).value.nodes[0];
    assert n in EventPiece(f, catalog, num).value.nodes;
  }

  lemma HasNodeMore(a: seq<Node>, b: seq<Node>, kind: string, id: string)
    requires HasNode(a, kind, id) && forall n :: n in a ==> n in b
    ensures HasNode(b, kind, id)
  {
  }

  lemma EventPartHas(events: Json, fs: seq<Field>, num: Numbers, name: string)
    requires Collect(Events(events, num), fs).Returns? && name in KeySet(fs)
    ensures HasNode(Collect(Events(events, num), fs).value.nodes, "event", "event:" + name)
  {
    var i :| 0 <= i < |fs| && fs[i].key == name;
    EntryContributes(Events(events, num), fs, i);
    EventPieceNode(fs[i], events, num);
    HasNodeMore(EventPiece(fs[i], events, num).value.nodes, Collect(Events(events, num), fs).value.nodes,
                "event", "event:" + name);
  }

  lemma EventNodeExists(d: Docs, num: Numbers, name: string)
    requires Gather(d, num).Returns? && name in EntrySet(d.events, "events")
    ensures HasNode(Gather(d, num).value.nodes, "event", "event:" + name)
  {
    PartsOf(d, num);
    var es := EntriesAt(d.events, "events");
    SortedKeySet(es);
    EventPartHas(d.events, Sort(es, ByKey()), num, name);
    HasNodeMore(EventPart(d, num).value.nodes, Gather(d, num).value.nodes, "event", "event:" + name);
  }

  lemma SortedKeySet(es: seq<Field>)
    ensures KeySet(Sort(es, ByKey())) == KeySet(es)
  {
    var fs := Sort(es, ByKey());
    SortedEntries(es);
    forall k ensures k in KeySet(fs) <==> k in KeySet(es) {
      if j :| 0 <= j < |es| && es[j].key == k {
        assert es[j] in fs;
        KeyIsThere(fs, es[j]);
      }
      if i :| 0 <= i < |fs| && fs[i].key == k {
        assert fs[i] in es;
        KeyIsThere(es, fs[i]);
      }
    }
  }

  lemma CapabilityPieceNode(f: Field, num: Numbers, text: string)
    requires CapabilityPiece(f, num).Returns? && Get(f.value, "capability_id") == Str(text)
    ensures exists n ::
      n in CapabilityPiece(f, num).value.nodes && n.kind == "capability" && n.id == "capability:" + text
  {
    var n := CapabilityPiece(f, num).value.nodes[0];
    assert n in CapabilityPiece(f, num).value.nodes;
  }

  lemma {:induction false} IdComesFrom(fs: seq<Field>, text: string)
    requires CapabilityIds(fs).Returns? && text in CapabilityIds(fs).value
    ensures exists i :: 0 <= i < |fs| && Get(fs[i].value, "capability_id") == Str(text)
  {
    var front, cap := fs[..|fs| - 1], fs[|fs| - 1].value;
    if text in CapabilityIds(front).value {
      IdComesFrom(front, text);
      var i :| 0 <= i < |front| && Get(front[i].value, "capability_id") == Str(text);
      assert fs[i] == front[i];
    } else {
      assert Get(fs[|fs| - 1].value, "capability_id") == Str(text);
    }
  }

  lemma CapabilityNodeExists(d: Docs, num: Numbers, fs: seq<Field>, text: string)
    requires Gather(d, num).Returns? && ElementsAt(d.capabilities, "capabilities") == Returns(fs)
    requires CapabilityIds(fs).Returns? && text in CapabilityIds(fs).value
    ensures HasNode(Gather(d, num).value.nodes, "capability", "capability:" + text)
  {
    PartsOf(d, num);
    IdComesFrom(fs, text);
    var i :| 0 <= i < |fs| && Get(fs[i].value, "capability_id") == Str(text);
    EntryContributes(Capabilities(num), fs, i);
    CapabilityPieceNode(fs[i], num, text);
  }

  // ---- the theorem ----

  /** The catalogs the builder reads are those the checks read: no kind of catalog comes in two files. */
  ghost predicate OneOfEach(files: seq<File>) {
    && FirstDoc(files, COMMAND_CATALOG) == LastDoc(files, COMMAND_CATALOG)
    && FirstDoc(files, EVENT_CATALOG) == LastDoc(files, EVENT_CATALOG)
    && (FirstDoc(files, CAPABILITIES) == LastDoc(files, CAPABILITIES)
        || (FirstDoc(files, CAPABILITIES) == Undef && LastDoc(files, CAPABILITIES) == Null))
  }

  lemma SilentCommand(c: Catalogs, f: Field)
    requires ReferenceErrors(c) == Returns([]) && Present(c.commands, "commands") && Present(c.events, "events")
    requires f in EntriesAt(c.commands, "commands")
    ensures Ids(c).Returns? && CommandClosed(f, EntrySet(c.events, "events"), Ids(c).value)
  {
    SilentIff(c);
    var fs := EntriesAt(c.commands, "commands");
    var i :| 0 <= i < |fs| && fs[i] == f;
  }

  lemma LinkedKnown(f: Field, events: set<string>, ids: set<string>, i: nat)
    requires CommandClosed(f, events, ids) && LinkedEvents(f.value).Returns? && i < |LinkedEvents(f.value).value|
    ensures KnownEvent(LinkedEvents(f.value).value[i], events)
  {
    var ev, all := LinkedEvents(f.value).value[i], AllEvents(f.value).value;
    LinkedAreChecked(f.value, i);
    var j :| 0 <= j < |all| && all[j] == ev;
    assert KnownEvent(all[j], events);
  }

  /** The graph before and after sorting. */
  lemma SortedGraph(d: Docs, version: Json, num: Numbers, less: Collation)
    requires Gather(d, num).Returns?
    ensures forall e :: e in BuildIR(d, version, num, less).value.edges <==> e in Gather(d, num).value.edges
    ensures forall n :: n in BuildIR(d, version, num, less).value.nodes <==> n in Gather(d, num).value.nodes
  {
    var p := Gather(d, num).value;
    SortPermutes(p.nodes, ById(less));
    SortPermutes(p.edges, ByEnds(less));
    forall e ensures e in Sort(p.edges, ByEnds(less)) <==> e in p.edges {
      assert e in multiset(Sort(p.edges, ByEnds(less))) <==> e in multiset(p.edges);
    }
    forall n ensures n in Sort(p.nodes, ById(less)) <==> n in p.nodes {
      assert n in multiset(Sort(p.nodes, ById(less))) <==> n in multiset(p.nodes);
    }
  }

  /** The checks are silent about files that hold one catalog of each kind. */
  ghost predicate Passed(files: seq<File>) {
    && OneOfEach(files) && Present(LastDoc(files, COMMAND_CATALOG), "commands")
    && Present(LastDoc(files, EVENT_CATALOG), "events")
    && ReferenceErrors(LastCatalogs(files)) == Returns([])
  }

  /** The same, of the documents the builder reads and the catalogs the checks read. */
  ghost predicate PassedDocs(d: Docs, c: Catalogs) {
    && d.commands == c.commands && d.events == c.events
    && ElementsAt(d.capabilities, "capabilities") == ElementsAt(c.capabilities, "capabilities")
    && Present(c.commands, "commands") && Present(c.events, "events") && ReferenceErrors(c) == Returns([])
  }

  lemma PassedIsDocs(files: seq<File>)
    requires Passed(files)
    ensures PassedDocs(DocsOf(files), LastCatalogs(files))
  {
    NoCapabilities();
  }

  lemma NoCapabilities()
    ensures ElementsAt(Undef, "capabilities") == ElementsAt(Null, "capabilities")
  {
  }

  lemma CommandOfEdge(d: Docs, c: Catalogs, num: Numbers, e: Edge) returns (f: Field)
    requires PassedDocs(d, c) && Gather(d, num).Returns?
    requires e in Gather(d, num).value.edges && (e.kind == PRODUCES || e.kind == REQUIRES)
    ensures LinkedEvents(f.value).Returns? && Ids(c).Returns?
    ensures CommandClosed(f, EntrySet(d.events, "events"), Ids(c).value)
    ensures e.kind == PRODUCES ==>
              exists i :: 0 <= i < |LinkedEvents(f.value).value|
                          && e.to == "event:" + StringOf(LinkedEvents(f.value).value[i])
    ensures e.kind == REQUIRES ==>
              var cap := Get(Get(f.value, "authorization_requirements"), "capability");
              !Falsy(cap) && e.to == "capability:" + StringOf(cap)
  {
    f := EdgeOrigin(d, num, e);
    SilentCommand(c, f);
  }

  lemma KnownTarget(d: Docs, c: Catalogs, num: Numbers, e: Edge) returns (ev: Json)
    requires PassedDocs(d, c) && Gather(d, num).Returns? && e in Gather(d, num).value.edges && e.kind == PRODUCES
    ensures KnownEvent(ev, EntrySet(d.events, "events")) && e.to == "event:" + StringOf(ev)
  {
    var f := CommandOfEdge(d, c, num, e);
    var evs := LinkedEvents(f.value).value;
    var i :| 0 <= i < |evs| && e.to == "event:" + StringOf(evs[i]);
    ev := evs[i];
    LinkedKnown(f, EntrySet(d.events, "events"), Ids(c).value, i);
  }

  lemma KnownName(ev: Json, events: set<string>)
    requires KnownEvent(ev, events)
    ensures StringOf(ev) in events
  {
  }

  lemma KnownEventNode(d: Docs, num: Numbers, ev: Json, to: string)
    requires Gather(d, num).Returns? && KnownEvent(ev, EntrySet(d.events, "events")) && to == "event:" + StringOf(ev)
    ensures HasNode(Gather(d, num).value.nodes, "event", to)
  {
    KnownName(ev, EntrySet(d.events, "events"));
    EventNodeExists(d, num, StringOf(ev));
  }

  lemma GatheredEventEdge(d: Docs, c: Catalogs, num: Numbers, e: Edge)
    requires PassedDocs(d, c) && Gather(d, num).Returns? && e in Gather(d, num).value.edges && e.kind == PRODUCES
    ensures HasNode(Gather(d, num).value.nodes, "event", e.to)
  {
    var ev := KnownTarget(d, c, num, e);
    KnownEventNode(d, num, ev, e.to);
  }

  lemma SortedHasNode(d: Docs, version: Json, num: Numbers, less: Collation, kind: string, id: string)
    requires Gather(d, num).Returns? && HasNode(Gather(d, num).value.nodes, kind, id)
    ensures HasNode(BuildIR(d, version, num, less).value.nodes, kind, id)
  {
    SortedGraph(d, version, num, less);
  }

  /** When the checks report no error, every edge from a command to an event reaches an event node. */
  lemma EventEdgesClosed(files: seq<File>, version: Json, num: Numbers, less: Collation, e: Edge)
    requires Passed(files) && BuildIR(DocsOf(files), version, num, less).Returns?
    requires e in BuildIR(DocsOf(files), version, num, less).value.edges && e.kind == PRODUCES
    ensures HasNode(BuildIR(DocsOf(files), version, num, less).value.nodes, "event", e.to)
  {
    PassedIsDocs(files);
    EventEdgeCloses(DocsOf(files), LastCatalogs(files), version, num, less, e);
  }

  lemma EventEdgeCloses(d: Docs, c: Catalogs, version: Json, num: Numbers, less: Collation, e: Edge)
    requires PassedDocs(d, c) && BuildIR(d, version, num, less).Returns?
    requires e in BuildIR(d, version, num, less).value.edges && e.kind == PRODUCES
    ensures HasNode(BuildIR(d, version, num, less).value.nodes, "event", e.to)
  {
    SortedGraph(d, version, num, less);
    GatheredEventEdge(d, c, num, e);
    SortedHasNode(d, version, num, less, "event", e.to);
  }

  lemma RequiredCapability(d: Docs, c: Catalogs, num: Numbers, e: Edge) returns (cap: Json)
    requires PassedDocs(d, c) && Gather(d, num).Returns? && e in Gather(d, num).value.edges && e.kind == REQUIRES
    ensures !Falsy(cap) && e.to == "capability:" + StringOf(cap) && Ids(c).Returns?
    ensures Exempt(cap) || (cap.Str? && cap.text in Ids(c).value)
  {
    OtherKinds();
    var f := CommandOfEdge(d, c, num, e);
    cap := Get(Get(f.value, "authorization_requirements"), "capability");
    assert CapabilityOf(f.value) == cap;
  }

  lemma CapabilityOfCatalog(d: Docs, c: Catalogs, num: Numbers, text: string)
    requires Gather(d, num).Returns? && Ids(c).Returns? && text in Ids(c).value
    requires ElementsAt(d.capabilities, "capabilities") == ElementsAt(c.capabilities, "capabilities")
    ensures HasNode(Gather(d, num).value.nodes, "capability", "capability:" + text)
  {
    CapabilityNodeExists(d, num, ElementsAt(c.capabilities, "capabilities").value, text);
  }

  lemma CapabilityEdgeCloses(d: Docs, c: Catalogs, version: Json, num: Numbers, less: Collation, e: Edge)
    requires PassedDocs(d, c) && BuildIR(d, version, num, less).Returns?
    requires e in BuildIR(d, version, num, less).value.edges && e.kind == REQUIRES
    ensures HasNode(BuildIR(d, version, num, less).value.nodes, "capability", e.to)
         || exists cap :: !Falsy(cap) && Exempt(cap) && e.to == "capability:" + StringOf(cap)
  {
    SortedGraph(d, version, num, less);
    var cap := RequiredCapability(d, c, num, e);
    if !Exempt(cap) {
      CapabilityOfCatalog(d, c, num, cap.text);
      assert StringOf(cap) == cap.text;
      SortedHasNode(d, version, num, less, "capability", e.to);
    }
  }

  /** And every edge to a capability reaches a capability node, or the name is one of the exempted. */
  lemma CapabilityEdgesClosed(files: seq<File>, version: Json, num: Numbers, less: Collation, e: Edge)
    requires Passed(files) && BuildIR(DocsOf(files), version, num, less).Returns?
    requires e in BuildIR(DocsOf(files), version, num, less).value.edges && e.kind == REQUIRES
    ensures HasNode(BuildIR(DocsOf(files), version, num, less).value.nodes, "capability", e.to)
         || exists cap :: !Falsy(cap) && Exempt(cap) && e.to == "capability:" + StringOf(cap)
  {
    PassedIsDocs(files);
    CapabilityEdgeCloses(DocsOf(files), LastCatalogs(files), version, num, less, e);
  }

  /** Every transition that is not bookkeeping has a trigger in the event catalog and emits events of the
      catalog only. */
  lemma TransitionsAreBound(files: seq<File>, f: Field, t: Field)
    requires Present(LastDoc(files, COMMAND_CATALOG), "commands")
    requires ReferenceErrors(LastCatalogs(files)) == Returns([])
    requires Present(LastDoc(files, STATE_MACHINES), "state_machines")
    requires f in EntriesAt(LastDoc(files, STATE_MACHINES), "state_machines")
    requires t in ObjectEntries(Or(Get(f.value, "transitions"), Obj([])))
    ensures TransitionBound(t.key, t.value, EntrySet(LastDoc(files, EVENT_CATALOG), "events"))
  {
    var c := LastCatalogs(files);
    SilentIff(c);
    var fs := EntriesAt(c.machines, "state_machines");
    var i :| 0 <= i < |fs| && fs[i] == f;
    assert MachineBound(fs[i], EntrySet(c.commands, "commands"), EntrySet(c.events, "events"));
    var ts := ObjectEntries(Or(Get(f.value, "transitions"), Obj([])));
    var j :| 0 <= j < |ts| && ts[j] == t;
  }

  // ---- and when an edge does not reach a node ----

  ghost predicate OnlyKind(p: Outcome<Piece>, kind: string) {
    p.Returns? ==> forall n :: n in p.value.nodes ==> n.kind == kind
  }

  lemma CollectOnly(visit: Visit, fs: seq<Field>, kind: string)
    requires forall f :: OnlyKind(visit(f), kind)
    ensures OnlyKind(Collect(visit, fs), kind)
  {
    if Collect(visit, fs).Returns? {
      forall n | n in Collect(visit, fs).value.nodes ensures n.kind == kind {
        NodeComesFrom(visit, fs, n);
        var i :| 0 <= i < |fs| && visit(fs[i]).Returns? && n in visit(fs[i]).value.nodes;
        assert OnlyKind(visit(fs[i]), kind);
      }
    }
  }

  lemma KindsDiffer()
    ensures "domain" != "event" && "entity" != "event" && "command" != "event" && "capability" != "event"
    ensures "saga" != "event" && "state_machine" != "event"
    ensures "domain" != "capability" && "entity" != "capability" && "command" != "capability"
    ensures "saga" != "capability" && "state_machine" != "capability"
  {
    assert |"event"| == 5 && |"domain"| == 6 && |"entity"| == 6 && |"command"| == 7 && |"capability"| == 10;
    assert |"saga"| == 4 && |"state_machine"| == 13;
  }

  lemma CommandOnly(f: Field, recipe: seq<Binding>, a: Expr, b: Expr, c: Expr, num: Numbers)
    ensures OnlyKind(CommandWith(f, recipe, a, b, c, num), "command")
  {
  }

  lemma DomainOnly(f: Field, manifest: Json, num: Numbers)
    ensures OnlyKind(DomainPiece(f.key, manifest, num), "domain")
  {
  }

  lemma EntityOnly(domain: string, f: Field, num: Numbers)
    ensures OnlyKind(EntityPiece(domain, f, num), "entity")
  {
  }

  lemma EventOnly(f: Field, catalog: Json, num: Numbers)
    ensures OnlyKind(EventPiece(f, catalog, num), "event")
  {
  }

  lemma CapabilityOnly(f: Field, num: Numbers)
    ensures OnlyKind(CapabilityPiece(f, num), "capability")
  {
  }

  lemma SagaOnly(f: Field, num: Numbers)
    ensures OnlyKind(SagaPiece(f, num), "saga")
  {
  }

  lemma MachineOnly(f: Field, num: Numbers)
    ensures OnlyKind(MachinePiece(f, num), "state_machine")
  {
  }

  /** Each loop makes nodes of its own kind. */
  lemma PartKinds(d: Docs, num: Numbers)
    ensures OnlyKind(Collect(Domains(d.manifest, num), DomainEntries(d.manifest)), "domain")
    ensures OnlyKind(Collect(DomainEntities(num), EntriesAt(d.domainModel, "domains")), "entity")
    ensures OnlyKind(CommandPart(d, num), "command")
    ensures OnlyKind(EventPart(d, num), "event")
    ensures OnlyKind(CapabilityPieces(d.capabilities, num), "capability")
    ensures OnlyKind(Collect(Sagas(num), SagaEntries(d.sagas)), "saga")
    ensures OnlyKind(Collect(Machines(num), EntriesAt(d.machines, "state_machines")), "state_machine")
  {
    forall f ensures OnlyKind(Domains(d.manifest, num)(f), "domain") { DomainOnly(f, d.manifest, num); }
    CollectOnly(Domains(d.manifest, num), DomainEntries(d.manifest), "domain");
    forall f ensures OnlyKind(DomainEntities(num)(f), "entity") {
      forall g ensures OnlyKind(Entities(f.key, num)(g), "entity") { EntityOnly(f.key, g, num); }
      CollectOnly(Entities(f.key, num), EntriesAt(f.value, "entities"), "entity");
    }
    CollectOnly(DomainEntities(num), EntriesAt(d.domainModel, "domains"), "entity");
    forall f ensures OnlyKind(Commands(num)(f), "command") {
      CommandOnly(f, COMMAND_NODE, COMMAND_DOMAIN, COMMAND_EVENTS, REQUIRED_CAPABILITY, num);
    }
    CollectOnly(Commands(num), Sort(EntriesAt(d.commands, "commands"), ByKey()), "command");
    forall f ensures OnlyKind(Events(d.events, num)(f), "event") { EventOnly(f, d.events, num); }
    CollectOnly(Events(d.events, num), Sort(EntriesAt(d.events, "events"), ByKey()), "event");
    forall f ensures OnlyKind(Capabilities(num)(f), "capability") { CapabilityOnly(f, num); }
    if ElementsAt(d.capabilities, "capabilities").Returns? {
      CollectOnly(Capabilities(num), ElementsAt(d.capabilities, "capabilities").value, "capability");
    }
    forall f ensures OnlyKind(Sagas(num)(f), "saga") { SagaOnly(f, num); }
    CollectOnly(Sagas(num), SagaEntries(d.sagas), "saga");
    forall f ensures OnlyKind(Machines(num)(f), "state_machine") { MachineOnly(f, num); }
    CollectOnly(Machines(num), EntriesAt(d.machines, "state_machines"), "state_machine");
  }

  /** So a node of one of the two kinds comes from the loop for that kind. */
  lemma NodeOfKind(d: Docs, num: Numbers, n: Node)
    requires Gather(d, num).Returns? && n in Gather(d, num).value.nodes
    ensures n.kind == "event" ==> EventPart(d, num).Returns? && n in EventPart(d, num).value.nodes
    ensures n.kind == "capability" ==>
              CapabilityPieces(d.capabilities, num).Returns? && n in CapabilityPieces(d.capabilities, num).value.nodes
  {
    PartKinds(d, num);
    KindsDiffer();
    SevenParts(Collect(Domains(d.manifest, num), DomainEntries(d.manifest)),
               Collect(DomainEntities(num), EntriesAt(d.domainModel, "domains")),
               CommandPart(d, num), EventPart(d, num), CapabilityPieces(d.capabilities, num),
               Collect(Sagas(num), SagaEntries(d.sagas)),
               Collect(Machines(num), EntriesAt(d.machines, "state_machines")));
  }

  predicate NamedBy(n: Node, f: Field) {
    n.id == "event:" + f.key
  }

  lemma EventPieceNodes(f: Field, catalog: Json, num: Numbers, n: Node)
    requires Events(catalog, num)(f).Returns? && n in Events(catalog, num)(f).value.nodes
    ensures NamedBy(n, f)
  {
  }

  lemma EventNodeOrigin(d: Docs, num: Numbers, n: Node)
    requires Gather(d, num).Returns? && n in Gather(d, num).value.nodes && n.kind == "event"
    ensures exists k :: k in EntrySet(d.events, "events") && n.id == "event:" + k
  {
    NodeOfKind(d, num, n);
    var es := EntriesAt(d.events, "events");
    var fs := Sort(es, ByKey());
    EventsName(d.events, num);
    TracedBack(Events(d.events, num), fs, n, NamedBy);
    var i :| 0 <= i < |fs| && NamedBy(n, fs[i]);
    SortedEntries(es);
    KeyIsThere(es, fs[i]) by { assert fs[i] in fs; }
  }

  lemma KeyIsThere(es: seq<Field>, f: Field)
    requires f in es
    ensures f.key in KeySet(es)
  {
    var j :| 0 <= j < |es| && es[j] == f;
    assert es[j].key in KeySet(es);
  }

  /** All nodes a loop makes bear this relation to the entry they are made for. */
  ghost predicate Relates(visit: Visit, named: (Node, Field) -> bool) {
    forall f: Field, m: Node :: visit(f).Returns? && m in visit(f).value.nodes ==> named(m, f)
  }

  lemma EventsName(catalog: Json, num: Numbers)
    ensures Relates(Events(catalog, num), NamedBy)
  {
    forall f: Field, m: Node | Events(catalog, num)(f).Returns? && m in Events(catalog, num)(f).value.nodes
      ensures NamedBy(m, f)
    {
      EventPieceNodes(f, catalog, num, m);
    }
  }

  lemma TracedBack(visit: Visit, fs: seq<Field>, n: Node, named: (Node, Field) -> bool)
    requires Collect(visit, fs).Returns? && n in Collect(visit, fs).value.nodes && Relates(visit, named)
    ensures exists i :: 0 <= i < |fs| && named(n, fs[i])
  {
    NodeComesFrom(visit, fs, n);
    var i :| 0 <= i < |fs| && visit(fs[i]).Returns? && n in visit(fs[i]).value.nodes;
    assert named(n, fs[i]);
  }

  /** Whatever the checks said: the edge from a command to one of its events reaches a node exactly when the
      event is in the first event catalog, the one the builder reads. The checks read the last one, so with
      two such files their silence does not close the graph. */
  lemma EventEdgeReachesIff(d: Docs, num: Numbers, f: Field, i: nat)
    requires Gather(d, num).Returns? && f in EntriesAt(d.commands, "commands")
    requires LinkedEvents(f.value).Returns? && i < |LinkedEvents(f.value).value|
    ensures var to := "event:" + StringOf(LinkedEvents(f.value).value[i]);
      && Edge(PRODUCES, "command:" + f.key, to) in Gather(d, num).value.edges
      && (HasNode(Gather(d, num).value.nodes, "event", to)
          <==> StringOf(LinkedEvents(f.value).value[i]) in EntrySet(d.events, "events"))
  {
    var name := StringOf(LinkedEvents(f.value).value[i]);
    EdgeOfCommand(d, num, f, i);
    if name in EntrySet(d.events, "events") { EventNodeExists(d, num, name); }
    if HasNode(Gather(d, num).value.nodes, "event", "event:" + name) {
      var n :| n in Gather(d, num).value.nodes && n.kind == "event" && n.id == "event:" + name;
      EventNodeOrigin(d, num, n);
      var k :| k in EntrySet(d.events, "events") && n.id == "event:" + k;
      assert ("event:" + k)[6..] == k && ("event:" + name)[6..] == name;
    }
  }

  lemma EdgeOfCommand(d: Docs, num: Numbers, f: Field, i: nat)
    requires Gather(d, num).Returns? && f in EntriesAt(d.commands, "commands")
    requires LinkedEvents(f.value).Returns? && i < |LinkedEvents(f.value).value|
    ensures Edge(PRODUCES, "command:" + f.key, "event:" + StringOf(LinkedEvents(f.value).value[i]))
         in Gather(d, num).value.edges
  {
    PartsOf(d, num);
    var fs := Sort(EntriesAt(d.commands, "commands"), ByKey());
    SortedEntries(EntriesAt(d.commands, "commands"));
    assert f in fs;
    var k :| 0 <= k < |fs| && fs[k] == f;
    EntryContributes(Commands(num), fs, k);
    LinkFrom(f, COMMAND_NODE, COMMAND_DOMAIN, num, i);
  }

  lemma LinkFrom(f: Field, recipe: seq<Binding>, domain: Expr, num: Numbers, i: nat)
    requires CommandWith(f, recipe, domain, COMMAND_EVENTS, REQUIRED_CAPABILITY, num).Returns?
    requires LinkedEvents(f.value).Returns? && i < |LinkedEvents(f.value).value|
    ensures Edge(PRODUCES, "command:" + f.key, "event:" + StringOf(LinkedEvents(f.value).value[i]))
         in CommandWith(f, recipe, domain, COMMAND_EVENTS, REQUIRED_CAPABILITY, num).value.edges
  {
    var id, env := "command:" + f.key, Env(f.key, "", f.value, Null, 0);
    LinkedEventsAre(f, num);
    CommandEdgeBack(id, NodeOf(id, "command", recipe, env, num), Eval(domain, env, num), LinkedEvents(f.value),
                    Returns(Get(Get(f.value, "authorization_requirements"), "capability")), i);
  }
}
