// When the edges of the intermediate representation reach their nodes, whatever the reference checks said,
// and files about which the checks are silent and whose graph is open all the same: the checks read the
// last file of each kind of catalog, the builder reads the first.

module OpenIr {
  import opened Text
  import opened Sorting
  import opened JsonValue
  import opened Js
  import opened IrRecipes
  import opened IrNodes
  import opened IrBuilder
  import opened ProtocolFiles
  import opened Validate
  import opened Validator
  import opened ClosedIr

  // ---- edges to events ----

  /** The `i`-th event that a command is linked to has this name. */
  ghost predicate Links(f: Field, i: int, name: string) {
    && LinkedEvents(f.value).Returns? && 0 <= i < |LinkedEvents(f.value).value|
    && StringOf(LinkedEvents(f.value).value[i]) == name
  }

  /** A command is linked to an event of this name. */
  ghost predicate UsesEvent(commands: Json, name: string) {
    exists f, i :: f in EntriesAt(commands, "commands") && Links(f, i, name)
  }

  ghost predicate EdgesReach(d: Docs, num: Numbers, edgeKind: string, nodeKind: string) {
    Gather(d, num).Returns?
    && forall e :: e in Gather(d, num).value.edges && e.kind == edgeKind ==>
         HasNode(Gather(d, num).value.nodes, nodeKind, e.to)
  }

  lemma LinkReachesIff(d: Docs, num: Numbers, f: Field, i: int, name: string)
    requires Gather(d, num).Returns? && f in EntriesAt(d.commands, "commands") && Links(f, i, name)
    ensures Edge(PRODUCES, "command:" + f.key, "event:" + name) in Gather(d, num).value.edges
    ensures HasNode(Gather(d, num).value.nodes, "event", "event:" + name) <==> name in EntrySet(d.events, "events")
  {
    EventEdgeReachesIff(d, num, f, i);
  }

  lemma TargetOfUse(d: Docs, num: Numbers, name: string) returns (e: Edge)
    requires Gather(d, num).Returns? && UsesEvent(d.commands, name)
    ensures e in Gather(d, num).value.edges && e.kind == PRODUCES && e.to == "event:" + name
    ensures HasNode(Gather(d, num).value.nodes, "event", "event:" + name) <==> name in EntrySet(d.events, "events")
  {
    var f, i :| f in EntriesAt(d.commands, "commands") && Links(f, i, name);
    LinkReachesIff(d, num, f, i, name);
    e := Edge(PRODUCES, "command:" + f.key, "event:" + name);
  }

  lemma UseOfTarget(d: Docs, num: Numbers, e: Edge) returns (name: string)
    requires Gather(d, num).Returns? && e in Gather(d, num).value.edges && e.kind == PRODUCES
    ensures UsesEvent(d.commands, name) && e.to == "event:" + name
  {
    var f := EdgeOrigin(d, num, e);
    var i :| 0 <= i < |LinkedEvents(f.value).value|
             && e.to == "event:" + StringOf(LinkedEvents(f.value).value[i]);
    name := StringOf(LinkedEvents(f.value).value[i]);
    assert Links(f, i, name);
  }

  /** Whatever the checks said: all edges to events reach a node exactly when every event a command of the
      builder's catalog is linked to is in the builder's event catalog. */
  lemma EventEdgesReachIff(d: Docs, num: Numbers)
    requires Gather(d, num).Returns?
    ensures EdgesReach(d, num, PRODUCES, "event")
       <==> forall name :: UsesEvent(d.commands, name) ==> name in EntrySet(d.events, "events")
  {
    if EdgesReach(d, num, PRODUCES, "event") {
      forall name | UsesEvent(d.commands, name) ensures name in EntrySet(d.events, "events") {
        var e := TargetOfUse(d, num, name);
      }
    }
    if forall name :: UsesEvent(d.commands, name) ==> name in EntrySet(d.events, "events") {
      forall e | e in Gather(d, num).value.edges && e.kind == PRODUCES
        ensures HasNode(Gather(d, num).value.nodes, "event", e.to)
      {
        var name := UseOfTarget(d, num, e);
        var target := TargetOfUse(d, num, name);
      }
    }
  }

  /** The checks report no error about these files, whose only command catalog is the one the builder reads. */
  ghost predicate Silent(files: seq<File>) {
    && FirstDoc(files, COMMAND_CATALOG) == LastDoc(files, COMMAND_CATALOG)
    && Present(LastDoc(files, COMMAND_CATALOG), "commands") && Present(LastDoc(files, EVENT_CATALOG), "events")
    && ReferenceErrors(LastCatalogs(files)) == Returns([])
  }

  lemma UsedIsChecked(files: seq<File>, name: string)
    requires Silent(files) && UsesEvent(FirstDoc(files, COMMAND_CATALOG), name)
    ensures name in EntrySet(LastDoc(files, EVENT_CATALOG), "events")
  {
    var c := LastCatalogs(files);
    var f, i :| f in EntriesAt(c.commands, "commands") && Links(f, i, name);
    UseIsChecked(c, f, i);
  }

  lemma UseIsChecked(c: Catalogs, f: Field, i: nat)
    requires ReferenceErrors(c) == Returns([]) && Present(c.commands, "commands") && Present(c.events, "events")
    requires f in EntriesAt(c.commands, "commands")
    requires LinkedEvents(f.value).Returns? && i < |LinkedEvents(f.value).value|
    ensures StringOf(LinkedEvents(f.value).value[i]) in EntrySet(c.events, "events")
  {
    SilentCommand(c, f);
    LinkedKnown(f, EntrySet(c.events, "events"), Ids(c).value, i);
  }

  /** The events of `last` that commands are linked to are also in `first`. */
  ghost predicate Covers(first: Json, last: Json, commands: Json) {
    forall name :: UsesEvent(commands, name) && name in EntrySet(last, "events") ==> name in EntrySet(first, "events")
  }

  lemma CoveredIff(d: Docs, last: Json, num: Numbers)
    requires Gather(d, num).Returns? && forall name :: UsesEvent(d.commands, name) ==> name in EntrySet(last, "events")
    ensures EdgesReach(d, num, PRODUCES, "event") <==> Covers(d.events, last, d.commands)
  {
    EventEdgesReachIff(d, num);
  }

  /** With several event catalogs, silence closes the edges to events exactly when those names of the last
      catalog that commands are linked to are also in the first. */
  lemma SilentClosesIff(files: seq<File>, num: Numbers)
    requires Silent(files) && Gather(DocsOf(files), num).Returns?
    ensures EdgesReach(DocsOf(files), num, PRODUCES, "event")
       <==> Covers(FirstDoc(files, EVENT_CATALOG), LastDoc(files, EVENT_CATALOG), FirstDoc(files, COMMAND_CATALOG))
  {
    var last := LastDoc(files, EVENT_CATALOG);
    forall name | UsesEvent(DocsOf(files).commands, name) ensures name in EntrySet(last, "events") {
      UsedIsChecked(files, name);
    }
    CoveredIff(DocsOf(files), last, num);
  }

  // ---- edges to capabilities ----

  function RequiredBy(def: Json): Json {
    Get(Get(def, "authorization_requirements"), "capability")
  }

  ghost predicate NeedsCapability(commands: Json, name: string) {
    exists f: Field ::
      f in EntriesAt(commands, "commands") && !Falsy(RequiredBy(f.value)) && StringOf(RequiredBy(f.value)) == name
  }

  /** The identifier as the builder renders it. */
  ghost predicate OffersCapability(doc: Json, name: string) {
    ElementsAt(doc, "capabilities").Returns?
    && exists i :: 0 <= i < |ElementsAt(doc, "capabilities").value|
                   && StringOf(Get(ElementsAt(doc, "capabilities").value[i].value, "capability_id")) == name
  }

  lemma OfferedHasNode(d: Docs, num: Numbers, name: string)
    requires Gather(d, num).Returns? && OffersCapability(d.capabilities, name)
    ensures HasNode(Gather(d, num).value.nodes, "capability", "capability:" + name)
  {
    PartsOf(d, num);
    var fs := ElementsAt(d.capabilities, "capabilities").value;
    var i :| 0 <= i < |fs| && StringOf(Get(fs[i].value, "capability_id")) == name;
    EntryContributes(Capabilities(num), fs, i);
    CapabilityMakesNode(fs[i], num);
  }

  lemma CapabilityMakesNode(f: Field, num: Numbers)
    requires CapabilityPiece(f, num).Returns?
    ensures HasNode(CapabilityPiece(f, num).value.nodes, "capability",
                    "capability:" + StringOf(Get(f.value, "capability_id")))
  {
    assert CapabilityPiece(f, num).value.nodes[0] in CapabilityPiece(f, num).value.nodes;
  }

  predicate Identified(n: Node, f: Field) {
    n.id == "capability:" + StringOf(Get(f.value, "capability_id"))
  }

  lemma CapabilityId(f: Field, num: Numbers, n: Node)
    requires CapabilityPiece(f, num).Returns? && n in CapabilityPiece(f, num).value.nodes
    ensures Identified(n, f)
  {
  }

  lemma CapabilitiesIdentify(num: Numbers)
    ensures Relates(Capabilities(num), Identified)
  {
    forall f: Field, n: Node | Capabilities(num)(f).Returns? && n in Capabilities(num)(f).value.nodes
      ensures Identified(n, f)
    {
      CapabilityId(f, num, n);
    }
  }

  lemma CapabilityPrefix(a: string, b: string)
    requires "capability:" + a == "capability:" + b
    ensures a == b
  {
    assert ("capability:" + a)[11..] == a && ("capability:" + b)[11..] == b;
  }

  lemma NodeIsOffered(d: Docs, num: Numbers, name: string)
    requires Gather(d, num).Returns? && HasNode(Gather(d, num).value.nodes, "capability", "capability:" + name)
    ensures OffersCapability(d.capabilities, name)
  {
    var n :| n in Gather(d, num).value.nodes && n.kind == "capability" && n.id == "capability:" + name;
    NodeOfKind(d, num, n);
    var fs := ElementsAt(d.capabilities, "capabilities").value;
    CapabilitiesIdentify(num);
    TracedBack(Capabilities(num), fs, n, Identified);
    var i :| 0 <= i < |fs| && Identified(n, fs[i]);
    CapabilityPrefix(StringOf(Get(fs[i].value, "capability_id")), name);
  }

  lemma RequirementLinks(f: Field, recipe: seq<Binding>, domain: Expr, num: Numbers)
    requires CommandWith(f, recipe, domain, COMMAND_EVENTS, REQUIRED_CAPABILITY, num).Returns?
    requires !Falsy(RequiredBy(f.value))
    ensures Edge(REQUIRES, "command:" + f.key, "capability:" + StringOf(RequiredBy(f.value)))
         in CommandWith(f, recipe, domain, COMMAND_EVENTS, REQUIRED_CAPABILITY, num).value.edges
  {
    LinkedEventsAre(f, num);
  }

  lemma EdgeOfRequirement(d: Docs, num: Numbers, f: Field)
    requires Gather(d, num).Returns? && f in EntriesAt(d.commands, "commands") && !Falsy(RequiredBy(f.value))
    ensures Edge(REQUIRES, "command:" + f.key, "capability:" + StringOf(RequiredBy(f.value)))
         in Gather(d, num).value.edges
  {
    PartsOf(d, num);
    var fs := Sort(EntriesAt(d.commands, "commands"), ByKey());
    SortedEntries(EntriesAt(d.commands, "commands"));
    assert f in fs;
    var k :| 0 <= k < |fs| && fs[k] == f;
    EntryContributes(Commands(num), fs, k);
    RequirementLinks(f, COMMAND_NODE, COMMAND_DOMAIN, num);
  }

  /** A command that requires a capability has an edge to it, which reaches a node exactly when the first
      capability file, the one the builder reads, offers that capability. */
  lemma CapabilityEdgeReachesIff(d: Docs, num: Numbers, f: Field)
    requires Gather(d, num).Returns? && f in EntriesAt(d.commands, "commands") && !Falsy(RequiredBy(f.value))
    ensures var name := StringOf(RequiredBy(f.value));
      && Edge(REQUIRES, "command:" + f.key, "capability:" + name) in Gather(d, num).value.edges
      && (HasNode(Gather(d, num).value.nodes, "capability", "capability:" + name)
          <==> OffersCapability(d.capabilities, name))
  {
    var name := StringOf(RequiredBy(f.value));
    EdgeOfRequirement(d, num, f);
    if OffersCapability(d.capabilities, name) { OfferedHasNode(d, num, name); }
    if HasNode(Gather(d, num).value.nodes, "capability", "capability:" + name) { NodeIsOffered(d, num, name); }
  }

  /** All edges to capabilities reach a node exactly when every capability that a command of the builder's
      catalog requires is offered; exempted names are no exception here. */
  lemma CapabilityEdgesReachIff(d: Docs, num: Numbers)
    requires Gather(d, num).Returns?
    ensures EdgesReach(d, num, REQUIRES, "capability")
       <==> forall name :: NeedsCapability(d.commands, name) ==> OffersCapability(d.capabilities, name)
  {
    OtherKinds();
    if EdgesReach(d, num, REQUIRES, "capability") {
      forall name | NeedsCapability(d.commands, name) ensures OffersCapability(d.capabilities, name) {
        var f: Field :| f in EntriesAt(d.commands, "commands") && !Falsy(RequiredBy(f.value))
                        && StringOf(RequiredBy(f.value)) == name;
        CapabilityEdgeReachesIff(d, num, f);
      }
    }
    if forall name :: NeedsCapability(d.commands, name) ==> OffersCapability(d.capabilities, name) {
      forall e | e in Gather(d, num).value.edges && e.kind == REQUIRES
        ensures HasNode(Gather(d, num).value.nodes, "capability", e.to)
      {
        var f := EdgeOrigin(d, num, e);
        var name := StringOf(RequiredBy(f.value));
        assert NeedsCapability(d.commands, name);
        OfferedHasNode(d, num, name);
      }
    }
  }

  // ---- when building a command succeeds ----

  lemma CommandIsCalm()
    ensures Calm(COMMAND_DOMAIN) && Calm(REQUIRED_CAPABILITY)
    ensures forall i :: 0 <= i < |COMMAND_NODE| ==>
      Calm(COMMAND_NODE[i].value) || COMMAND_NODE[i].value == COMMAND_EVENTS
  {
    assert Calm(At(Self, "authorization_requirements"));
    assert Calm(At(Self, "issuer"));
    assert Calm(At(At(Self, "issuer"), "minimum_capability"));
    assert Calm(At(Self, "constitutional_gates"));
    assert Calm(At(At(Self, "constitutional_gates"), "invariants"));
    assert Calm(Either(REQUIRED_CAPABILITY, At(At(Self, "issuer"), "minimum_capability")));
    forall i | 0 <= i < |COMMAND_NODE| ensures Calm(COMMAND_NODE[i].value) || COMMAND_NODE[i].value == COMMAND_EVENTS {}
  }

  /** A command compiles when its event lists are lists. */
  lemma CommandReturns(f: Field, num: Numbers)
    requires !Nullish(f.value) && LinkedEvents(f.value).Returns?
    ensures CommandPiece(f, num).Returns?
  {
    var env := Env(f.key, "", f.value, Null, 0);
    CommandIsCalm();
    LinkedEventsAre(f, num);
    forall i | 0 <= i < |COMMAND_NODE| ensures Eval(COMMAND_NODE[i].value, env, num).Returns? {
      if Calm(COMMAND_NODE[i].value) { CalmReturns(COMMAND_NODE[i].value, env, num); }
    }
    EvalAllReturns(COMMAND_NODE, env, num);
    CalmReturns(COMMAND_DOMAIN, env, num);
  }

  // ---- files that pass the checks and whose graph is open ----

  function Fields1(key: string, value: Json): Json {
    Obj([Field(key, value)])
  }

  /** A command that produces event e and requires capability c. */
  const DEFINITION := Obj([
    Field("resulting_events", Obj([Field("success", Arr([Str("e")]))])),
    Field("authorization_requirements", Obj([Field("capability", Str("c"))])),
    Field("constitutional_gates", Obj([Field("identity_required", Bool(true))]))])

  const COMMANDS_DOC := Fields1("commands", Fields1("x", DEFINITION))

  lemma NoStart(s: string, w: string, k: nat)
    requires k < |w| && Lacks(s, w[k])
    ensures !StartsWith(s, w)
  {
    if |w| <= |s| { assert s[..|w|][k] == s[k]; }
  }

  lemma {:induction false} NotIncluded(s: string, w: string, k: nat)
    requires k < |w| && Lacks(s, w[k])
    ensures !Includes(s, w)
  {
    NoStart(s, w, k);
    if s != "" { NotIncluded(s[1..], w, k); }
  }

  lemma IncludedAtStart(w: string, t: string)
    ensures Includes(w + t, w)
  {
    assert (w + t)[..|w|] == w;
  }

  lemma IncludedLater(c: char, s: string, w: string)
    requires Includes(s, w)
    ensures Includes([c] + s, w)
  {
    assert ([c] + s)[1..] == s;
  }

  const NAMES := [MANIFEST, DOMAIN_MODEL, COMMAND_CATALOG, EVENT_CATALOG, STATE_MACHINES, CAPABILITIES, SAGAS,
                  CONSTITUTION]

  /** A character of each name that the paths with another name do without, and its place. */
  const MARKS := ['f', '2', '3', '4', '5', '8', '9', '1']

  const PLACES := [16, 1, 1, 1, 1, 1, 1, 1]

  lemma MarksOccur(i: nat)
    requires i < |NAMES|
    ensures PLACES[i] < |NAMES[i]| && NAMES[i][PLACES[i]] == MARKS[i]
  {
  }

  lemma HoldsOne(path: string, own: nat)
    requires own < |NAMES| && Includes(path, NAMES[own])
    requires forall i :: 0 <= i < |NAMES| && i != own ==> Lacks(path, MARKS[i])
    ensures forall i :: 0 <= i < |NAMES| ==> (Includes(path, NAMES[i]) <==> i == own)
  {
    forall i | 0 <= i < |NAMES| && i != own ensures !Includes(path, NAMES[i]) {
      MarksOccur(i);
      NotIncluded(path, NAMES[i], PLACES[i]);
    }
  }

  lemma InFolder(folder: char, name: string, end: string)
    ensures Includes([folder] + (['/'] + (name + end)), name)
  {
    IncludedAtStart(name, end);
    IncludedLater('/', name + end, name);
    IncludedLater(folder, ['/'] + (name + end), name);
  }

  const MANIFEST_PATH := "00_protocol-manifest.yaml"

  lemma ManifestPathLacks()
    ensures forall i :: 0 <= i < |MANIFEST_PATH| ==> MANIFEST_PATH[i] !in {'2', '3', '4', '5', '8', '9', '1'}
  {
  }

  lemma ManifestPathHolds()
    ensures forall i :: 0 <= i < |NAMES| ==> (Includes(MANIFEST_PATH, NAMES[i]) <==> i == 0)
  {
    IncludedAtStart(MANIFEST, ".yaml");
    assert MANIFEST + ".yaml" == MANIFEST_PATH;
    ManifestPathLacks();
    HoldsOne(MANIFEST_PATH, 0);
  }

  const COMMANDS_PATH := "03_command-catalog.yaml"

  lemma CommandsPathLacks()
    ensures forall i :: 0 <= i < |COMMANDS_PATH| ==> COMMANDS_PATH[i] !in {'f', '2', '4', '5', '8', '9', '1'}
  {
  }

  lemma CommandsPathHolds()
    ensures forall i :: 0 <= i < |NAMES| ==> (Includes(COMMANDS_PATH, NAMES[i]) <==> i == 2)
  {
    IncludedAtStart(COMMAND_CATALOG, ".yaml");
    assert COMMAND_CATALOG + ".yaml" == COMMANDS_PATH;
    CommandsPathLacks();
    HoldsOne(COMMANDS_PATH, 2);
  }

  function EventsPath(folder: char): string {
    [folder] + (['/'] + (EVENT_CATALOG + ".yaml"))
  }

  lemma EventsPathLacks(folder: char)
    requires folder == 'a' || folder == 'b'
    ensures forall i :: 0 <= i < |EventsPath(folder)| ==> EventsPath(folder)[i] !in {'f', '2', '3', '5', '8', '9', '1'}
  {
    var rest := EVENT_CATALOG + ".yaml";
    forall i | 0 <= i < |rest| ensures rest[i] !in {'f', '2', '3', '5', '8', '9', '1'} {}
    var path := EventsPath(folder);
    forall i | 0 <= i < |path| ensures path[i] !in {'f', '2', '3', '5', '8', '9', '1'} {
      if i >= 2 { assert path[i] == rest[i - 2]; }
    }
  }

  lemma EventsPathHolds(folder: char)
    requires folder == 'a' || folder == 'b'
    ensures forall i :: 0 <= i < |NAMES| ==> (Includes(EventsPath(folder), NAMES[i]) <==> i == 3)
  {
    InFolder(folder, EVENT_CATALOG, ".yaml");
    EventsPathLacks(folder);
    HoldsOne(EventsPath(folder), 3);
  }

  function CapabilitiesPath(folder: char): string {
    [folder] + (['/'] + (CAPABILITIES + ".yaml"))
  }

  lemma CapabilitiesPathLacks(folder: char)
    requires folder == 'a' || folder == 'b'
    ensures forall i :: 0 <= i < |CapabilitiesPath(folder)| ==>
      CapabilitiesPath(folder)[i] !in {'f', '2', '3', '4', '5', '9', '1'}
  {
    var rest := CAPABILITIES + ".yaml";
    forall i | 0 <= i < |rest| ensures rest[i] !in {'f', '2', '3', '4', '5', '9', '1'} {}
    var path := CapabilitiesPath(folder);
    forall i | 0 <= i < |path| ensures path[i] !in {'f', '2', '3', '4', '5', '9', '1'} {
      if i >= 2 { assert path[i] == rest[i - 2]; }
    }
  }

  lemma CapabilitiesPathHolds(folder: char)
    requires folder == 'a' || folder == 'b'
    ensures forall i :: 0 <= i < |NAMES| ==> (Includes(CapabilitiesPath(folder), NAMES[i]) <==> i == 5)
  {
    InFolder(folder, CAPABILITIES, ".yaml");
    CapabilitiesPathLacks(folder);
    HoldsOne(CapabilitiesPath(folder), 5);
  }

  const FIRST_EVENTS := Fields1("events", Obj([]))
  const ENVELOPE_FIELDS := ["event_id", "event_name", "aggregate_id", "actor_id", "correlation_id", "causation_id",
                            "command_id", "timestamp", "payload", "audit"]

  function NamedFields(names: seq<string>): seq<Field> {
    seq(|names|, i requires 0 <= i < |names| => Field(names[i], Str("")))
  }

  /** An event catalog with one event and a complete envelope. */
  const LAST_EVENTS := Obj([Field("events", Fields1("e", Obj([]))),
                            Field("event_envelope", Fields1("fields", Obj(NamedFields(ENVELOPE_FIELDS))))])
  const FIRST_CAPABILITIES := Fields1("capabilities", Arr([]))
  const LAST_CAPABILITIES := Fields1("capabilities", Arr([Fields1("capability_id", Str("c"))]))
  const MANIFEST_DOC := Fields1("domains", Obj([]))

  /** A protocol whose event catalog and capability catalog come in two files each. */
  const TWO_CATALOGS := [
    File(MANIFEST_PATH, MANIFEST_DOC), File(COMMANDS_PATH, COMMANDS_DOC),
    File(EventsPath('a'), FIRST_EVENTS), File(EventsPath('b'), LAST_EVENTS),
    File(CapabilitiesPath('a'), FIRST_CAPABILITIES), File(CapabilitiesPath('b'), LAST_CAPABILITIES)]

  /** Which name the path of each file holds. */
  const OWN := [0, 2, 3, 3, 5, 5]

  lemma PathsHold(k: nat)
    requires k < |TWO_CATALOGS|
    ensures forall i :: 0 <= i < |NAMES| ==> (Includes(TWO_CATALOGS[k].path, NAMES[i]) <==> i == OWN[k])
  {
    if k == 0 { ManifestPathHolds(); }
    else if k == 1 { CommandsPathHolds(); }
    else if k == 2 { EventsPathHolds('a'); }
    else if k == 3 { EventsPathHolds('b'); }
    else if k == 4 { CapabilitiesPathHolds('a'); }
    else { CapabilitiesPathHolds('b'); }
  }

  lemma {:induction false} NoFirst(files: seq<File>, name: string)
    requires forall i :: 0 <= i < |files| ==> !Includes(files[i].path, name)
    ensures FirstDoc(files, name) == Undef && LastDoc(files, name) == Null
  {
    NoFirstDoc(files, name);
    NoLastDoc(files, name);
  }

  lemma {:induction false} NoFirstDoc(files: seq<File>, name: string)
    requires forall i :: 0 <= i < |files| ==> !Includes(files[i].path, name)
    ensures FirstDoc(files, name) == Undef
  {
    if files != [] { NoFirstDoc(files[1..], name); }
  }

  lemma {:induction false} NoLastDoc(files: seq<File>, name: string)
    requires forall i :: 0 <= i < |files| ==> !Includes(files[i].path, name)
    ensures LastDoc(files, name) == Null
  {
    if files != [] { NoLastDoc(files[..|files| - 1], name); }
  }

  lemma {:induction false} LastIs(files: seq<File>, name: string, k: nat)
    requires k < |files| && Includes(files[k].path, name)
    requires forall i :: k < i < |files| ==> !Includes(files[i].path, name)
    ensures LastDoc(files, name) == files[k].parsed
    decreases |files|
  {
    if k < |files| - 1 { LastIs(files[..|files| - 1], name, k); }
  }

  lemma ReadOf(i: nat, first: nat, last: nat)
    requires i < |NAMES| && first < |OWN| && last < |OWN| && OWN[first] == i && OWN[last] == i
    requires forall k :: 0 <= k < |OWN| && (k < first || k > last) ==> OWN[k] != i
    ensures FirstDoc(TWO_CATALOGS, NAMES[i]) == TWO_CATALOGS[first].parsed
    ensures LastDoc(TWO_CATALOGS, NAMES[i]) == TWO_CATALOGS[last].parsed
  {
    forall k | 0 <= k < |TWO_CATALOGS| ensures Includes(TWO_CATALOGS[k].path, NAMES[i]) <==> i == OWN[k] {
      PathsHold(k);
    }
    FirstIs(TWO_CATALOGS, NAMES[i], first);
    LastIs(TWO_CATALOGS, NAMES[i], last);
  }

  lemma ReadNone(i: nat)
    requires i < |NAMES| && forall k :: 0 <= k < |OWN| ==> OWN[k] != i
    ensures FirstDoc(TWO_CATALOGS, NAMES[i]) == Undef && LastDoc(TWO_CATALOGS, NAMES[i]) == Null
  {
    forall k | 0 <= k < |TWO_CATALOGS| ensures !Includes(TWO_CATALOGS[k].path, NAMES[i]) { PathsHold(k); }
    NoFirst(TWO_CATALOGS, NAMES[i]);
  }

  lemma DocsFrom(files: seq<File>, d: Docs, c: Catalogs)
    requires FirstDoc(files, MANIFEST) == d.manifest && FirstDoc(files, DOMAIN_MODEL) == d.domainModel
    requires FirstDoc(files, COMMAND_CATALOG) == d.commands && LastDoc(files, COMMAND_CATALOG) == c.commands
    requires FirstDoc(files, EVENT_CATALOG) == d.events && LastDoc(files, EVENT_CATALOG) == c.events
    requires FirstDoc(files, CAPABILITIES) == d.capabilities && LastDoc(files, CAPABILITIES) == c.capabilities
    requires FirstDoc(files, SAGAS) == d.sagas
    requires FirstDoc(files, STATE_MACHINES) == d.machines && LastDoc(files, STATE_MACHINES) == c.machines
    ensures DocsOf(files) == d && LastCatalogs(files) == c
  {
  }

  lemma ManifestRead()
    ensures FirstDoc(TWO_CATALOGS, MANIFEST) == MANIFEST_DOC
  {
    ReadOf(0, 0, 0);
  }

  lemma NoModel()
    ensures FirstDoc(TWO_CATALOGS, DOMAIN_MODEL) == Undef && LastDoc(TWO_CATALOGS, DOMAIN_MODEL) == Null
  {
    ReadNone(1);
  }

  lemma NoConstitution()
    ensures LastDoc(TWO_CATALOGS, CONSTITUTION) == Null
  {
    ReadNone(7);
  }

  lemma CommandsRead()
    ensures FirstDoc(TWO_CATALOGS, COMMAND_CATALOG) == COMMANDS_DOC
    ensures LastDoc(TWO_CATALOGS, COMMAND_CATALOG) == COMMANDS_DOC
  {
    ReadOf(2, 1, 1);
    assert TWO_CATALOGS[1].parsed == COMMANDS_DOC && NAMES[2] == COMMAND_CATALOG;
  }

  lemma EventsRead()
    ensures FirstDoc(TWO_CATALOGS, EVENT_CATALOG) == FIRST_EVENTS && LastDoc(TWO_CATALOGS, EVENT_CATALOG) == LAST_EVENTS
  {
    ReadOf(3, 2, 3);
  }

  lemma CapabilitiesRead()
    ensures FirstDoc(TWO_CATALOGS, CAPABILITIES) == FIRST_CAPABILITIES
    ensures LastDoc(TWO_CATALOGS, CAPABILITIES) == LAST_CAPABILITIES
  {
    ReadOf(5, 4, 5);
  }

  lemma NoMachines()
    ensures FirstDoc(TWO_CATALOGS, STATE_MACHINES) == Undef && LastDoc(TWO_CATALOGS, STATE_MACHINES) == Null
  {
    ReadNone(4);
  }

  lemma NoSagas()
    ensures FirstDoc(TWO_CATALOGS, SAGAS) == Undef && LastDoc(TWO_CATALOGS, SAGAS) == Null
  {
    ReadNone(6);
  }

  const FIRST_DOCS := Docs(MANIFEST_DOC, Undef, COMMANDS_DOC, FIRST_EVENTS, FIRST_CAPABILITIES, Undef, Undef)
  const LAST_DOCS := Catalogs(COMMANDS_DOC, LAST_EVENTS, LAST_CAPABILITIES, Null)

  /** What the builder and the checks read. */
  lemma DocsRead()
    ensures DocsOf(TWO_CATALOGS) == FIRST_DOCS && LastCatalogs(TWO_CATALOGS) == LAST_DOCS
  {
    ManifestRead();
    NoModel();
    CommandsRead();
    EventsRead();
    CapabilitiesRead();
    NoMachines();
    NoSagas();
    DocsFrom(TWO_CATALOGS, FIRST_DOCS, LAST_DOCS);
  }

  // ---- the checks are silent ----

  lemma DefinitionFields()
    ensures Get(DEFINITION, "resulting_events") == Fields1("success", Arr([Str("e")]))
    ensures Get(DEFINITION, "produces_events") == Undef
    ensures RequiredBy(DEFINITION) == Str("c") && HasGates(DEFINITION)
  {
    assert "resulting_events"[0] == 'r' && "authorization_requirements"[0] == 'a' && "constitutional_gates"[0] == 'c';
    assert "produces_events"[0] == 'p';
    assert Get(DEFINITION, "authorization_requirements") == Obj([Field("capability", Str("c"))]);
    assert Get(DEFINITION, "constitutional_gates") == Obj([Field("identity_required", Bool(true))]);
  }

  lemma ResultLists()
    ensures var result := Fields1("success", Arr([Str("e")]));
      ListAt(result, "success") == Returns([Str("e")]) && ListAt(result, "failure") == Returns([])
      && ListAt(result, "conditional") == Returns([])
  {
    assert "success"[0] == 's' && "failure"[0] == 'f' && "conditional"[0] == 'c';
  }

  lemma DefinitionIs()
    ensures LinkedEvents(DEFINITION) == Returns([Str("e")]) && AllEvents(DEFINITION) == Returns([Str("e")])
  {
    DefinitionFields();
    ResultLists();
    assert ListAt(DEFINITION, "produces_events") == Returns([]);
    var e, none: seq<Json> := [Str("e")], [];
    assert e + none == e && none + none == none;
  }

  lemma DefinitionIsClosed()
    ensures CommandClosed(Field("x", DEFINITION), {"e"}, {"c"})
  {
    DefinitionFields();
    DefinitionIs();
    assert CapabilityOf(DEFINITION) == Str("c");
  }

  lemma OneId(c: Field, id: string)
    requires !Nullish(c.value) && Get(c.value, "capability_id") == Str(id) && id != ""
    ensures CapabilityIds([c]) == Returns({id})
  {
    assert [c][..0] == [] && CapabilityIds([]) == Returns({});
    assert {} + {id} == {id};
  }

  lemma IdsRead()
    ensures Ids(LAST_DOCS) == Returns({"c"})
  {
    var c := Field("", Fields1("capability_id", Str("c")));
    assert Nameless([c.value]) == [c];
    assert ElementsAt(LAST_CAPABILITIES, "capabilities") == Returns([c]);
    assert Get(c.value, "capability_id") == Str("c");
    OneId(c, "c");
  }

  lemma CatalogSets()
    ensures EntriesAt(COMMANDS_DOC, "commands") == [Field("x", DEFINITION)]
    ensures EntrySet(LAST_EVENTS, "events") == {"e"} && EntrySet(FIRST_EVENTS, "events") == {}
    ensures Ids(LAST_DOCS) == Returns({"c"})
  {
    var es := EntriesAt(LAST_EVENTS, "events");
    assert es == [Field("e", Obj([]))];
    assert es[0].key in KeySet(es);
    IdsRead();
  }

  lemma CatalogsSilent()
    ensures ReferenceErrors(LAST_DOCS) == Returns([])
  {
    CatalogSets();
    DefinitionIsClosed();
    SilentIff(LAST_DOCS);
  }

  lemma ReferencesSilent()
    ensures Silent(TWO_CATALOGS)
  {
    DocsRead();
    CommandsRead();
    EventsRead();
    CatalogsSilent();
  }

  lemma EnvelopeComplete()
    ensures EnvelopeFields(LAST_EVENTS) == 10
  {
    var fields := Obj(NamedFields(ENVELOPE_FIELDS));
    var fs := LAST_EVENTS.fields;
    assert fs[0].key == "events" && fs[1].key == "event_envelope" && |"events"| != |"event_envelope"|;
    assert GetField(fs, "event_envelope") == GetField(fs[1..], "event_envelope") == fs[1].value;
    assert Get(LAST_EVENTS, "event_envelope") == Fields1("fields", fields);
    assert |ObjectEntries(fields)| == |ENVELOPE_FIELDS| == 10;
  }

  lemma NothingStray()
    ensures NoStray(Sections(COMMANDS_DOC))
  {
    assert Sections(COMMANDS_DOC)[0].key == "commands";
  }

  lemma NothingMore()
    ensures Readable(Null) && Constituted(Null)
    ensures forall commands :: SagasResolved(Null, commands)
  {
    assert Nameless([]) == [];
  }

  lemma SourcesRead()
    ensures LastSources(TWO_CATALOGS) == Sources(Null, Null, Null, LAST_DOCS)
  {
    DocsRead();
    NoModel();
    NoConstitution();
    NoSagas();
  }

  /** The validation pass reports no error at all on the two-catalog protocol. */
  lemma TwoCatalogsAreValid()
    ensures ValidationErrors(LastSources(TWO_CATALOGS)) == Returns([])
  {
    ReferencesSilent();
    SourcesRead();
    EnvelopeComplete();
    NothingStray();
    NothingMore();
    CatalogsSilent();
    SilentIff(LAST_DOCS);
    NoErrorIff(Sources(Null, Null, Null, LAST_DOCS));
  }

  // ---- and the graph is open ----

  /** Documents that hold a single command compile when the command does. */
  lemma OneCommandGathers(d: Docs, num: Numbers, f: Field)
    requires DomainEntries(d.manifest) == [] && EntriesAt(d.domainModel, "domains") == []
    requires EntriesAt(d.commands, "commands") == [f] && CommandPiece(f, num).Returns?
    requires EntriesAt(d.events, "events") == [] && CapabilityPieces(d.capabilities, num) == Returns(NOTHING)
    requires SagaEntries(d.sagas) == [] && EntriesAt(d.machines, "state_machines") == []
    ensures Gather(d, num).Returns?
  {
    OneCommandCollected(f, num);
    assert Sort([f], ByKey()) == [f] by { assert [f][1..] == []; }
  }

  lemma OneCommandCollected(f: Field, num: Numbers)
    requires CommandPiece(f, num).Returns?
    ensures Collect(Commands(num), [f]).Returns?
  {
    assert [f][1..] == [];
    JoinNothing(CommandPiece(f, num));
  }

  lemma TwoCatalogsGather(num: Numbers)
    ensures Gather(FIRST_DOCS, num).Returns?
  {
    var f := Field("x", DEFINITION);
    CatalogSets();
    DefinitionIs();
    CommandReturns(f, num);
    NothingElse(num);
    OneCommandGathers(FIRST_DOCS, num, f);
  }

  lemma NothingElse(num: Numbers)
    ensures DomainEntries(MANIFEST_DOC) == [] && EntriesAt(Undef, "domains") == [] && SagaEntries(Undef) == []
    ensures EntriesAt(FIRST_EVENTS, "events") == [] && CapabilityPieces(FIRST_CAPABILITIES, num) == Returns(NOTHING)
    ensures EntriesAt(Undef, "state_machines") == []
  {
    assert UnsortedDomains(MANIFEST_DOC) == [];
    assert Nameless([]) == [];
  }

  lemma OneLink(f: Field, name: string)
    requires LinkedEvents(f.value) == Returns([Str(name)])
    ensures Links(f, 0, name)
  {
    assert [Str(name)][0] == Str(name);
  }

  lemma OpenEventEdge(d: Docs, num: Numbers, f: Field, name: string)
    requires Gather(d, num).Returns? && f in EntriesAt(d.commands, "commands")
    requires LinkedEvents(f.value) == Returns([Str(name)]) && name !in EntrySet(d.events, "events")
    ensures Edge(PRODUCES, "command:" + f.key, "event:" + name) in Gather(d, num).value.edges
    ensures !HasNode(Gather(d, num).value.nodes, "event", "event:" + name)
  {
    OneLink(f, name);
    LinkReachesIff(d, num, f, 0, name);
  }

  lemma OpenCapabilityEdge(d: Docs, num: Numbers, f: Field, name: string)
    requires Gather(d, num).Returns? && f in EntriesAt(d.commands, "commands")
    requires RequiredBy(f.value) == Str(name) && name != "" && ElementsAt(d.capabilities, "capabilities") == Returns([])
    ensures Edge(REQUIRES, "command:" + f.key, "capability:" + name) in Gather(d, num).value.edges
    ensures !HasNode(Gather(d, num).value.nodes, "capability", "capability:" + name)
  {
    CapabilityEdgeReachesIff(d, num, f);
  }

  lemma FirstDocsOpen(num: Numbers)
    requires Gather(FIRST_DOCS, num).Returns?
    ensures var p := Gather(FIRST_DOCS, num).value;
      && Edge(PRODUCES, "command:" + "x", "event:" + "e") in p.edges && !HasNode(p.nodes, "event", "event:" + "e")
      && Edge(REQUIRES, "command:" + "x", "capability:" + "c") in p.edges
      && !HasNode(p.nodes, "capability", "capability:" + "c")
  {
    CatalogSets();
    DefinitionIs();
    DefinitionFields();
    NoFirstCapabilities();
    BothOpen(FIRST_DOCS, num, Field("x", DEFINITION), "e", "c");
  }

  lemma NoFirstCapabilities()
    ensures ElementsAt(FIRST_CAPABILITIES, "capabilities") == Returns([])
  {
  }

  lemma BothOpen(d: Docs, num: Numbers, f: Field, event: string, capability: string)
    requires Gather(d, num).Returns? && EntriesAt(d.commands, "commands") == [f]
    requires LinkedEvents(f.value) == Returns([Str(event)]) && event !in EntrySet(d.events, "events")
    requires RequiredBy(f.value) == Str(capability) && capability != ""
    requires ElementsAt(d.capabilities, "capabilities") == Returns([])
    ensures var p := Gather(d, num).value;
      && Edge(PRODUCES, "command:" + f.key, "event:" + event) in p.edges
      && !HasNode(p.nodes, "event", "event:" + event)
      && Edge(REQUIRES, "command:" + f.key, "capability:" + capability) in p.edges
      && !HasNode(p.nodes, "capability", "capability:" + capability)
  {
    assert f in EntriesAt(d.commands, "commands");
    OpenEventEdge(d, num, f, event);
    OpenCapabilityEdge(d, num, f, capability);
  }

  /** The validation pass reports no error on the two-catalog protocol, it compiles, and the command's edge to
      its event and its edge to its capability lead nowhere. */
  lemma SilentButOpen(version: Json, num: Numbers, less: Collation)
    ensures ValidationErrors(LastSources(TWO_CATALOGS)) == Returns([])
    ensures BuildIR(DocsOf(TWO_CATALOGS), version, num, less).Returns?
    ensures var ir := BuildIR(DocsOf(TWO_CATALOGS), version, num, less).value;
      && Edge(PRODUCES, "command:" + "x", "event:" + "e") in ir.edges && !HasNode(ir.nodes, "event", "event:" + "e")
      && Edge(REQUIRES, "command:" + "x", "capability:" + "c") in ir.edges
      && !HasNode(ir.nodes, "capability", "capability:" + "c")
  {
    TwoCatalogsAreValid();
    DocsRead();
    TwoCatalogsGather(num);
    FirstDocsOpen(num);
    SortedGraph(FIRST_DOCS, version, num, less);
  }
}
