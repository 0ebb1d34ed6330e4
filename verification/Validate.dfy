// Reference validation of the parsed protocol, and what its silence guarantees about the graph that the
// builder makes of the same files.

module ProtocolFiles {
  import opened Text
  import opened Sorting
  import opened JsonValue
  import opened Js
  import opened IrRecipes
  import opened IrBuilder
  import opened IrOrder
  import opened IrIds
  import opened KeyOrder

  /** A parsed source file. */
  datatype File = File(path: string, parsed: Json)

  /** `files.find(f => f.relativePath.includes(name))?.parsed` */
  function FirstDoc(files: seq<File>, name: string): Json {
    if files == [] then Undef
    else if Includes(files[0].path, name) then files[0].parsed
    else FirstDoc(files[1..], name)
  }

  /** The parsed content of the last file with the name in its path. */
  function LastDoc(files: seq<File>, name: string): Json {
    if files == [] then Null
    else if Includes(files[|files| - 1].path, name) then files[|files| - 1].parsed
    else LastDoc(files[..|files| - 1], name)
  }

  method FindLast(files: seq<File>, name: string) returns (doc: Json)
    ensures doc == LastDoc(files, name)
  {
    doc := Null;
    assert files[..0] == [];
    for i := 0 to |files|
      invariant doc == LastDoc(files[..i], name)
    {
      assert files[..i + 1][..i] == files[..i];
      if Includes(files[i].path, name) { doc := files[i].parsed; }
    }
    assert files[..|files|] == files;
  }

  const MANIFEST := "00_protocol-manifest"
  const DOMAIN_MODEL := "02_domain-model"
  const COMMAND_CATALOG := "03_command-catalog"
  const EVENT_CATALOG := "04_event-catalog"
  const STATE_MACHINES := "05_state-machines"
  const CAPABILITIES := "08_security-capabilities"
  const SAGAS := "09_saga-orchestration"

  /** The documents the builder reads: the first of each kind. */
  function DocsOf(files: seq<File>): Docs {
    Docs(FirstDoc(files, MANIFEST), FirstDoc(files, DOMAIN_MODEL), FirstDoc(files, COMMAND_CATALOG),
         FirstDoc(files, EVENT_CATALOG), FirstDoc(files, CAPABILITIES), FirstDoc(files, SAGAS),
         FirstDoc(files, STATE_MACHINES))
  }

  /** The version found by the parser: the last truthy one in a manifest. */
  function ProtocolVersion(files: seq<File>): Json {
    if files == [] then Str("0.0.0")
    else
      var f, before := files[|files| - 1], ProtocolVersion(files[..|files| - 1]);
      if !Falsy(f.parsed) && Includes(f.path, MANIFEST)
      then Or(Get(Get(f.parsed, "protocol"), "version"), before)
      else before
  }

  /** The same files, each the same up to the order of its keys. */
  ghost predicate FilesEquiv(a: seq<File>, b: seq<File>) {
    |a| == |b| && forall i :: 0 <= i < |a| ==> a[i].path == b[i].path && ParsedEquiv(a[i].parsed, b[i].parsed)
  }

  lemma {:induction false} FirstDocEquiv(a: seq<File>, b: seq<File>, name: string)
    requires FilesEquiv(a, b)
    ensures DocEquiv(FirstDoc(a, name), FirstDoc(b, name))
  {
    if a != [] && !Includes(a[0].path, name) { FirstDocEquiv(a[1..], b[1..], name); }
  }

  lemma {:induction false} VersionEquiv(a: seq<File>, b: seq<File>)
    requires FilesEquiv(a, b)
    ensures Equiv(ProtocolVersion(a), ProtocolVersion(b))
  {
    if a != [] {
      var n := |a| - 1;
      VersionEquiv(a[..n], b[..n]);
      var v, w := a[n].parsed, b[n].parsed;
      ParsedEquivIsEquiv(v, w);
      assert PROTO[0] == '_';
      GetEquiv(v, w, "protocol");
      GetEquiv(Get(v, "protocol"), Get(w, "protocol"), "version");
      OrEquiv(Get(Get(v, "protocol"), "version"), ProtocolVersion(a[..n]), Get(Get(w, "protocol"), "version"),
              ProtocolVersion(b[..n]));
    }
  }

  lemma DocsOfEquiv(a: seq<File>, b: seq<File>)
    requires FilesEquiv(a, b)
    ensures DocsEquiv(DocsOf(a), DocsOf(b))
  {
    FirstDocEquiv(a, b, MANIFEST);
    FirstDocEquiv(a, b, DOMAIN_MODEL);
    FirstDocEquiv(a, b, COMMAND_CATALOG);
    FirstDocEquiv(a, b, EVENT_CATALOG);
    FirstDocEquiv(a, b, CAPABILITIES);
    FirstDocEquiv(a, b, SAGAS);
    FirstDocEquiv(a, b, STATE_MACHINES);
  }

  /** Source files that differ in the order of map keys only compile to the same sorted nodes up to key
      order, the same sorted edges and the same `irHash`, or fail alike, provided node identifiers are
      unique. */
  lemma CompileIgnoresKeyOrder(a: seq<File>, b: seq<File>, num: Numbers, less: Collation, h: string -> string)
    requires FilesEquiv(a, b) && OrderBlind(num) && StrictTotal(less)
    requires Gather(DocsOf(a), num).Returns? ==> NoClash(DocsOf(a))
    ensures BuildIR(DocsOf(a), ProtocolVersion(a), num, less).Throws?
       <==> BuildIR(DocsOf(b), ProtocolVersion(b), num, less).Throws?
    ensures BuildIR(DocsOf(a), ProtocolVersion(a), num, less).Returns? ==>
              var x := BuildIR(DocsOf(a), ProtocolVersion(a), num, less).value;
              var y := BuildIR(DocsOf(b), ProtocolVersion(b), num, less).value;
              SameIr(x, y) && h(IrText(x)) == h(IrText(y))
  {
    DocsOfEquiv(a, b);
    VersionEquiv(a, b);
    NoClashIgnoresKeyOrder(DocsOf(a), DocsOf(b), ProtocolVersion(a), ProtocolVersion(b), num, less, h);
  }

  // ---- exactly when key order does not matter ----

  predicate HostOrderedFiles(files: seq<File>) {
    forall i :: 0 <= i < |files| ==> HostOrdered(files[i].parsed)
  }

  lemma {:induction false} FirstHost(files: seq<File>, name: string)
    requires HostOrderedFiles(files)
    ensures HostOrdered(FirstDoc(files, name))
  {
    if files != [] && !Includes(files[0].path, name) {
      assert forall i :: 0 <= i < |files[1..]| ==> files[1..][i] == files[i + 1];
      FirstHost(files[1..], name);
    }
  }

  lemma DocsHost(files: seq<File>)
    requires HostOrderedFiles(files)
    ensures HostOrderedDocs(DocsOf(files))
  {
    FirstHost(files, MANIFEST);
    FirstHost(files, DOMAIN_MODEL);
    FirstHost(files, COMMAND_CATALOG);
    FirstHost(files, EVENT_CATALOG);
    FirstHost(files, CAPABILITIES);
    FirstHost(files, SAGAS);
    FirstHost(files, STATE_MACHINES);
  }

  lemma {:induction false} FirstIs(files: seq<File>, name: string, k: nat)
    requires k < |files| && Includes(files[k].path, name) && forall i :: 0 <= i < k ==> !Includes(files[i].path, name)
    ensures FirstDoc(files, name) == files[k].parsed
  {
    if k > 0 { FirstIs(files[1..], name, k - 1); }
  }

  lemma {:induction false} FirstAt(files: seq<File>, name: string) returns (k: nat)
    requires !FirstDoc(files, name).Undef?
    ensures k < |files| && Includes(files[k].path, name) && forall i :: 0 <= i < k ==> !Includes(files[i].path, name)
  {
    if Includes(files[0].path, name) {
      k := 0;
    } else {
      var j := FirstAt(files[1..], name);
      k := j + 1;
    }
  }

  function Compiled(files: seq<File>, num: Numbers, less: Collation): Outcome<Ir> {
    BuildIR(DocsOf(files), ProtocolVersion(files), num, less)
  }

  /** Whatever the order of keys in which the files are written, the same text is hashed. */
  ghost predicate FilesOrderFree(files: seq<File>, num: Numbers, less: Collation) {
    forall b :: FilesEquiv(files, b) && HostOrderedFiles(b) ==>
      SameText(Compiled(files, num, less), Compiled(b, num, less))
  }

  /** The files with two domains of the domain model exchanged. */
  lemma ExchangedFiles(files: seq<File>, i: nat, j: nat) returns (b: seq<File>)
    requires FilesEquiv(files, files) && HostOrderedFiles(files) && i < j < |DomainMap(DocsOf(files))|
    requires !IsIndex(DomainMap(DocsOf(files))[i].key) && !IsIndex(DomainMap(DocsOf(files))[j].key)
    ensures FilesEquiv(files, b) && HostOrderedFiles(b)
    ensures Get(DocsOf(b).domainModel, "domains") == Obj(Exchanged(DomainMap(DocsOf(files)), i, j))
  {
    var k := FirstAt(files, DOMAIN_MODEL);
    FirstIs(files, DOMAIN_MODEL, k);
    var model, fs := files[k].parsed, DomainMap(DocsOf(files));
    ModelExchanged(model, fs, i, j);
    b := files[k := File(files[k].path, WithDomains(model, Exchanged(fs, i, j)))];
    FirstIs(b, DOMAIN_MODEL, k);
  }

  /** The hash of the compiled files is the same for every order in which their maps can be written exactly
      when no two entities of different domains, neither domain named by an array index, have the same
      dotted name. */
  lemma CompileOrderFreeIff(files: seq<File>, num: Numbers, less: Collation)
    requires FilesEquiv(files, files) && HostOrderedFiles(files) && OrderBlind(num) && StrictTotal(less)
    requires Compiled(files, num, less).Returns?
    ensures FilesOrderFree(files, num, less) <==> NoMovableClash(DocsOf(files))
  {
    if NoMovableClash(DocsOf(files)) {
      FilesFree(files, num, less);
    } else {
      var fs := DomainMap(DocsOf(files));
      var i, j :| 0 <= i < j < |fs| && Exchangeable(fs[i], fs[j]);
      FilesNotFree(files, i, j, num, less);
    }
  }

  lemma FilesFree(files: seq<File>, num: Numbers, less: Collation)
    requires FilesEquiv(files, files) && HostOrderedFiles(files) && OrderBlind(num) && StrictTotal(less)
    requires Compiled(files, num, less).Returns? && NoMovableClash(DocsOf(files))
    ensures FilesOrderFree(files, num, less)
  {
    DocsOfEquiv(files, files);
    DocsHost(files);
    forall b | FilesEquiv(files, b) && HostOrderedFiles(b)
      ensures SameText(Compiled(files, num, less), Compiled(b, num, less))
    {
      DocsOfEquiv(files, b);
      VersionEquiv(files, b);
      DocsHost(b);
      NoClashIsFree(DocsOf(files), DocsOf(b), ProtocolVersion(files), ProtocolVersion(b), num, less);
    }
  }

  lemma FilesNotFree(files: seq<File>, i: nat, j: nat, num: Numbers, less: Collation)
    requires FilesEquiv(files, files) && HostOrderedFiles(files) && OrderBlind(num) && StrictTotal(less)
    requires Compiled(files, num, less).Returns? && i < j < |DomainMap(DocsOf(files))|
    requires Exchangeable(DomainMap(DocsOf(files))[i], DomainMap(DocsOf(files))[j])
    ensures !FilesOrderFree(files, num, less)
  {
    DocsOfEquiv(files, files);
    var b := ExchangedFiles(files, i, j);
    DocsOfEquiv(files, b);
    VersionEquiv(files, b);
    ClashIsNotFree(DocsOf(files), DocsOf(b), DomainMap(DocsOf(files)), i, j, ProtocolVersion(files), ProtocolVersion(b),
                   num, less);
    assert FilesEquiv(files, b) && HostOrderedFiles(b);
  }
}

module Validate {
  import opened Text
  import opened JsonValue
  import opened Js
  import opened IrBuilder
  import opened ProtocolFiles

  /** An ERROR of the reference checks; texts are left out. */
  datatype Diagnostic = Diagnostic(code: string, subject: string, what: Json)

  function KeySet(fs: seq<Field>): set<string> {
    set i | 0 <= i < |fs| :: fs[i].key
  }

  function EntrySet(doc: Json, key: string): set<string> {
    KeySet(EntriesAt(doc, key))
  }

  // ---- one check after the other ----

  function Both(p: Outcome<seq<Diagnostic>>, q: Outcome<seq<Diagnostic>>): Outcome<seq<Diagnostic>> {
    var a :- p;
    var b :- q;
    Returns(a + b)
  }

  type Check = Field -> Outcome<seq<Diagnostic>>

  function CheckEach(check: Check, fs: seq<Field>): Outcome<seq<Diagnostic>> {
    if fs == [] then Returns([]) else Both(CheckEach(check, fs[..|fs| - 1]), check(fs[|fs| - 1]))
  }

  // ---- capabilities ----

  function CapabilityIds(fs: seq<Field>): Outcome<set<string>> {
    if fs == [] then Returns({})
    else
      var before :- CapabilityIds(fs[..|fs| - 1]);
      var cap := fs[|fs| - 1].value;
      if Nullish(cap) then Throws
      else
        var id := Get(cap, "capability_id");
        Returns(if !Falsy(id) && id.Str? then before + {id.text} else before)
  }

  /** Names that need not be in the catalog. */
  predicate Exempt(cap: Json) {
    || Falsy(cap) || cap == Str("system.internal")
    || (cap.Str? && (Includes(cap.text, "varies") || Includes(cap.text, "*")))
    || (cap.Arr? && (Str("varies") in cap.items || Str("*") in cap.items))
  }

  /** `includes` is a method of texts and lists only. */
  function CheckCapability(command: string, cap: Json, capabilities: set<string>): Outcome<seq<Diagnostic>> {
    if Falsy(cap) || cap == Str("system.internal") then Returns([])
    else if !cap.Str? && !cap.Arr? then Throws
    else if Exempt(cap) || (cap.Str? && cap.text in capabilities) then Returns([])
    else Returns([Diagnostic("REF-004", command, cap)])
  }

  // ---- commands ----

  function ListAt(v: Json, key: string): Outcome<seq<Json>> {
    Iterate(Or(Get(v, key), Arr([])))
  }

  /** Every event a command names. */
  function AllEvents(def: Json): Outcome<seq<Json>> {
    var result := Or(Get(def, "resulting_events"), Obj([]));
    var success :- ListAt(result, "success");
    var failure :- ListAt(result, "failure");
    var conditional :- ListAt(result, "conditional");
    var produced :- ListAt(def, "produces_events");
    Returns(success + (failure + (conditional + produced)))
  }

  predicate KnownEvent(ev: Json, events: set<string>) {
    ev.Str? && ev.text in events
  }

  function CheckEvents(command: string, evs: seq<Json>, events: set<string>): seq<Diagnostic> {
    if evs == [] then []
    else
      var ev := evs[|evs| - 1];
      CheckEvents(command, evs[..|evs| - 1], events)
      + (if KnownEvent(ev, events) then [] else [Diagnostic("REF-003", command, ev)])
  }

  function CapabilityOf(def: Json): Json {
    Or(Get(Get(def, "authorization_requirements"), "capability"), Get(Get(def, "issuer"), "minimum_capability"))
  }

  predicate HasGates(def: Json) {
    var gates := Get(def, "constitutional_gates");
    !Falsy(gates) && !Get(gates, "identity_required").Undef?
  }

  function CheckCommand(f: Field, events: set<string>, capabilities: set<string>): Outcome<seq<Diagnostic>> {
    if Nullish(f.value) then Throws
    else
      var evs :- AllEvents(f.value);
      var caps :- CheckCapability(f.key, CapabilityOf(f.value), capabilities);
      Returns(CheckEvents(f.key, evs, events) + caps
              + if HasGates(f.value) then [] else [Diagnostic("SEM-004", f.key, Undef)])
  }

  // ---- state machines ----

  predicate UnknownCommand(cmd: Json, commands: set<string>) {
    cmd.Str? && cmd.text !in commands && !StartsWith(cmd.text, "system ") && !Includes(cmd.text, " ")
  }

  function CheckCommandRefs(machine: string, cmds: seq<Json>, commands: set<string>): seq<Diagnostic> {
    if cmds == [] then []
    else
      var cmd := cmds[|cmds| - 1];
      CheckCommandRefs(machine, cmds[..|cmds| - 1], commands)
      + (if UnknownCommand(cmd, commands) then [Diagnostic("REF-002", machine, cmd)] else [])
  }

  function CheckState(machine: string, state: Json, commands: set<string>): Outcome<seq<Diagnostic>> {
    if Nullish(state) then Throws
    else
      var allowed :- ListAt(state, "allowed_commands");
      Returns(CheckCommandRefs(machine, allowed, commands))
  }

  function StateCheck(machine: string, commands: set<string>): Check {
    (f: Field) => CheckState(machine, f.value, commands)
  }

  /** Entries of a transition map or list that are not transitions. */
  predicate Bookkeeping(name: string, t: Json) {
    || name == "invalid_transitions" || name == "abi"
    || (t.Obj? && !Falsy(Get(t, "abi")) && |t.fields| <= 2)
    || !t.Obj?
  }

  function TriggerOf(t: Json): Json {
    OrElse(Get(t, "trigger"), Get(t, "event"))
  }

  predicate HasTrigger(t: Json) {
    !Nullish(TriggerOf(t)) && Trim(StringOf(TriggerOf(t))) != ""
  }

  function CheckEmitted(machine: string, evs: seq<Json>, events: set<string>): seq<Diagnostic> {
    if evs == [] then []
    else
      var ev := evs[|evs| - 1];
      CheckEmitted(machine, evs[..|evs| - 1], events)
      + (if ev.Str? && ev.text !in events then [Diagnostic("REF-008", machine, ev)] else [])
  }

  function CheckTransition(machine: string, name: string, t: Json, events: set<string>): seq<Diagnostic> {
    if Bookkeeping(name, t) then []
    else if !HasTrigger(t) then [Diagnostic("REF-008", machine, Undef)]
    else
      (if StringOf(TriggerOf(t)) in events then [] else [Diagnostic("REF-008", machine, TriggerOf(t))])
      + CheckEmitted(machine, ListOrNone(Get(t, "emitted_events")), events)
  }

  function CheckCommandOf(machine: string, t: Json, commands: set<string>): Outcome<seq<Diagnostic>> {
    if Nullish(t) then Throws else Returns(CheckCommandRefs(machine, [Get(t, "command")], commands))
  }

  function CommandOfCheck(machine: string, commands: set<string>): Check {
    (f: Field) => CheckCommandOf(machine, f.value, commands)
  }

  function TransitionCheck(machine: string, events: set<string>): Check {
    (f: Field) => Returns(CheckTransition(machine, f.key, f.value, events))
  }

  function StatesOf(machine: Json): seq<Field> {
    ObjectEntries(Or(Get(machine, "states"), Obj([])))
  }

  function TransitionsOf(machine: Json): seq<Field> {
    ObjectEntries(Or(Get(machine, "transitions"), Obj([])))
  }

  /** The commands of the states, the commands of the transitions, and then their triggers and events. */
  function CheckMachine(f: Field, commands: set<string>, events: set<string>): Outcome<seq<Diagnostic>> {
    if Nullish(f.value) then Throws
    else
      Both(CheckEach(StateCheck(f.key, commands), StatesOf(f.value)),
           Both(CheckEach(CommandOfCheck(f.key, commands), TransitionsOf(f.value)),
                CheckEach(TransitionCheck(f.key, events), TransitionsOf(f.value))))
  }

  // ---- the whole ----

  function CommandCheck(events: set<string>, capabilities: set<string>): Check {
    (f: Field) => CheckCommand(f, events, capabilities)
  }

  function MachineCheck(commands: set<string>, events: set<string>): Check {
    (f: Field) => CheckMachine(f, commands, events)
  }

  method CheckLoop(check: Check, fs: seq<Field>) returns (r: Outcome<seq<Diagnostic>>)
    ensures r == CheckEach(check, fs)
  {
    var diagnostics: seq<Diagnostic> := [];
    assert fs[..0] == [];
    for i := 0 to |fs|
      invariant CheckEach(check, fs[..i]) == Returns(diagnostics)
    {
      assert fs[..i + 1][..i] == fs[..i];
      var found := check(fs[i]);
      if found.Throws? {
        ThrowStays(check, fs, i + 1);
        return Throws;
      }
      diagnostics := diagnostics + found.value;
    }
    assert fs[..|fs|] == fs;
    return Returns(diagnostics);
  }

  lemma {:induction false} ThrowStays(check: Check, fs: seq<Field>, n: nat)
    requires n <= |fs| && CheckEach(check, fs[..n]).Throws?
    ensures CheckEach(check, fs).Throws?
    decreases |fs| - n
  {
    if n < |fs| {
      assert fs[..n + 1][..n] == fs[..n];
      ThrowStays(check, fs, n + 1);
    } else {
      assert fs[..n] == fs;
    }
  }

  datatype Catalogs = Catalogs(commands: Json, events: Json, capabilities: Json, machines: Json)

  /** The catalogs the checks read: the last of each kind. */
  function LastCatalogs(files: seq<File>): Catalogs {
    Catalogs(LastDoc(files, COMMAND_CATALOG), LastDoc(files, EVENT_CATALOG), LastDoc(files, CAPABILITIES),
             LastDoc(files, STATE_MACHINES))
  }

  predicate Present(doc: Json, key: string) {
    !Falsy(Get(doc, key))
  }

  function Ids(c: Catalogs): Outcome<set<string>> {
    var caps :- ElementsAt(c.capabilities, "capabilities");
    CapabilityIds(caps)
  }

  function CommandErrors(c: Catalogs, ids: set<string>): Outcome<seq<Diagnostic>> {
    if Present(c.commands, "commands") && Present(c.events, "events")
    then CheckEach(CommandCheck(EntrySet(c.events, "events"), ids), EntriesAt(c.commands, "commands"))
    else Returns([])
  }

  function MachineErrors(c: Catalogs): Outcome<seq<Diagnostic>> {
    if Present(c.machines, "state_machines") && Present(c.commands, "commands")
    then CheckEach(MachineCheck(EntrySet(c.commands, "commands"), EntrySet(c.events, "events")),
                   EntriesAt(c.machines, "state_machines"))
    else Returns([])
  }

  /** The reference errors of the protocol. */
  function ReferenceErrors(c: Catalogs): Outcome<seq<Diagnostic>> {
    var ids :- Ids(c);
    Both(CommandErrors(c, ids), MachineErrors(c))
  }

  /** The loops over commands and state machines. */
  method CheckReferences(files: seq<File>) returns (r: Outcome<seq<Diagnostic>>)
    ensures r == ReferenceErrors(LastCatalogs(files))
  {
    var commands := FindLast(files, COMMAND_CATALOG);
    var events := FindLast(files, EVENT_CATALOG);
    var capabilities := FindLast(files, CAPABILITIES);
    var machines := FindLast(files, STATE_MACHINES);
    var caps := ElementsAt(capabilities, "capabilities");
    if caps.Throws? { return Throws; }
    var ids := CapabilityIds(caps.value);
    if ids.Throws? { return Throws; }
    var commandErrors: seq<Diagnostic> := [];
    var machineErrors: seq<Diagnostic> := [];
    if Present(commands, "commands") && Present(events, "events") {
      var found := CheckLoop(CommandCheck(EntrySet(events, "events"), ids.value), EntriesAt(commands, "commands"));
      if found.Throws? { return Throws; }
      commandErrors := found.value;
    }
    if Present(machines, "state_machines") && Present(commands, "commands") {
      var found := CheckLoop(MachineCheck(EntrySet(commands, "commands"), EntrySet(events, "events")),
                             EntriesAt(machines, "state_machines"));
      if found.Throws? { return Throws; }
      machineErrors := found.value;
    }
    return Returns(commandErrors + machineErrors);
  }

  // ---- what silence means ----

  ghost predicate AllKnown(evs: seq<Json>, events: set<string>) {
    forall i :: 0 <= i < |evs| ==> KnownEvent(evs[i], events)
  }

  /** A command that may be compiled: all its events and its capability are in the catalogs. */
  ghost predicate CommandClosed(f: Field, events: set<string>, capabilities: set<string>) {
    && !Nullish(f.value) && AllEvents(f.value).Returns? && AllKnown(AllEvents(f.value).value, events)
    && (var cap := CapabilityOf(f.value); Exempt(cap) || (cap.Str? && cap.text in capabilities))
    && HasGates(f.value)
  }

  lemma {:induction false} CheckEventsIff(command: string, evs: seq<Json>, events: set<string>)
    ensures CheckEvents(command, evs, events) == [] <==> AllKnown(evs, events)
  {
    if evs != [] {
      CheckEventsIff(command, evs[..|evs| - 1], events);
      assert forall i :: 0 <= i < |evs| - 1 ==> evs[..|evs| - 1][i] == evs[i];
    }
  }

  lemma CheckCommandIff(f: Field, events: set<string>, capabilities: set<string>)
    ensures CheckCommand(f, events, capabilities) == Returns([]) <==> CommandClosed(f, events, capabilities)
  {
    if !Nullish(f.value) && AllEvents(f.value).Returns? {
      CheckEventsIff(f.key, AllEvents(f.value).value, events);
    }
  }

  ghost predicate NoUnknown(cmds: seq<Json>, commands: set<string>) {
    forall i :: 0 <= i < |cmds| ==> !UnknownCommand(cmds[i], commands)
  }

  lemma {:induction false} CheckCommandRefsIff(machine: string, cmds: seq<Json>, commands: set<string>)
    ensures CheckCommandRefs(machine, cmds, commands) == [] <==> NoUnknown(cmds, commands)
  {
    if cmds != [] {
      CheckCommandRefsIff(machine, cmds[..|cmds| - 1], commands);
      assert forall i :: 0 <= i < |cmds| - 1 ==> cmds[..|cmds| - 1][i] == cmds[i];
    }
  }

  lemma {:induction false} CheckEmittedIff(machine: string, evs: seq<Json>, events: set<string>)
    ensures CheckEmitted(machine, evs, events) == []
       <==> forall i :: 0 <= i < |evs| && evs[i].Str? ==> evs[i].text in events
  {
    if evs != [] {
      CheckEmittedIff(machine, evs[..|evs| - 1], events);
      assert forall i :: 0 <= i < |evs| - 1 ==> evs[..|evs| - 1][i] == evs[i];
    }
  }

  /** A transition that can fire: its trigger and the events it emits are in the catalog. */
  ghost predicate TransitionBound(name: string, t: Json, events: set<string>) {
    Bookkeeping(name, t) ||
    (HasTrigger(t) && StringOf(TriggerOf(t)) in events
     && var evs := ListOrNone(Get(t, "emitted_events"));
        forall i :: 0 <= i < |evs| && evs[i].Str? ==> evs[i].text in events)
  }

  lemma CheckTransitionIff(machine: string, name: string, t: Json, events: set<string>)
    ensures CheckTransition(machine, name, t, events) == [] <==> TransitionBound(name, t, events)
  {
    CheckEmittedIff(machine, ListOrNone(Get(t, "emitted_events")), events);
  }

  lemma BothIff(p: Outcome<seq<Diagnostic>>, q: Outcome<seq<Diagnostic>>)
    ensures Both(p, q) == Returns([]) <==> p == Returns([]) && q == Returns([])
  {
    if p.Returns? && q.Returns? { assert |p.value + q.value| == |p.value| + |q.value|; }
  }

  ghost predicate EachSilent(check: Check, fs: seq<Field>) {
    forall i :: 0 <= i < |fs| ==> check(fs[i]) == Returns([])
  }

  lemma EachSilentLast(check: Check, fs: seq<Field>)
    requires fs != []
    ensures EachSilent(check, fs) <==> EachSilent(check, fs[..|fs| - 1]) && check(fs[|fs| - 1]) == Returns([])
  {
    var front := fs[..|fs| - 1];
    if EachSilent(check, front) && check(fs[|fs| - 1]) == Returns([]) {
      forall i | 0 <= i < |fs| ensures check(fs[i]) == Returns([]) {
        if i < |front| { assert check(front[i]) == Returns([]); }
      }
    }
    if EachSilent(check, fs) {
      forall i | 0 <= i < |front| ensures check(front[i]) == Returns([]) { assert check(fs[i]) == Returns([]); }
    }
  }

  lemma {:induction false} CheckEachIff(check: Check, fs: seq<Field>)
    ensures CheckEach(check, fs) == Returns([]) <==> EachSilent(check, fs)
  {
    if fs != [] {
      CheckEachIff(check, fs[..|fs| - 1]);
      EachSilentLast(check, fs);
      BothIff(CheckEach(check, fs[..|fs| - 1]), check(fs[|fs| - 1]));
    }
  }

  ghost predicate StateBound(state: Json, commands: set<string>) {
    && !Nullish(state) && ListAt(state, "allowed_commands").Returns?
    && NoUnknown(ListAt(state, "allowed_commands").value, commands)
  }

  ghost predicate StatesBound(states: seq<Field>, commands: set<string>) {
    forall i :: 0 <= i < |states| ==> StateBound(states[i].value, commands)
  }

  lemma CheckStateIff(machine: string, state: Json, commands: set<string>)
    ensures CheckState(machine, state, commands) == Returns([]) <==> StateBound(state, commands)
  {
    if ListAt(state, "allowed_commands").Returns? {
      CheckCommandRefsIff(machine, ListAt(state, "allowed_commands").value, commands);
    }
  }

  lemma CheckStatesIff(machine: string, states: seq<Field>, commands: set<string>)
    ensures CheckEach(StateCheck(machine, commands), states) == Returns([]) <==> StatesBound(states, commands)
  {
    var check := StateCheck(machine, commands);
    CheckEachIff(check, states);
    forall i | 0 <= i < |states|
      ensures check(states[i]) == Returns([]) <==> StateBound(states[i].value, commands)
    {
      CheckStateIff(machine, states[i].value, commands);
    }
    if EachSilent(check, states) {
      forall i | 0 <= i < |states| ensures StateBound(states[i].value, commands) {
        assert check(states[i]) == Returns([]);
      }
    }
  }

  ghost predicate CommandBound(t: Json, commands: set<string>) {
    !Nullish(t) && !UnknownCommand(Get(t, "command"), commands)
  }

  lemma CheckCommandOfIff(machine: string, t: Json, commands: set<string>)
    ensures CheckCommandOf(machine, t, commands) == Returns([]) <==> CommandBound(t, commands)
  {
    var cmd := Get(t, "command");
    CheckCommandRefsIff(machine, [cmd], commands);
    assert NoUnknown([cmd], commands) <==> !UnknownCommand(cmd, commands) by { assert [cmd][0] == cmd; }
  }

  ghost predicate CommandsBound(ts: seq<Field>, commands: set<string>) {
    forall i :: 0 <= i < |ts| ==> CommandBound(ts[i].value, commands)
  }

  lemma CheckCommandsIff(machine: string, ts: seq<Field>, commands: set<string>)
    ensures CheckEach(CommandOfCheck(machine, commands), ts) == Returns([]) <==> CommandsBound(ts, commands)
  {
    var check := CommandOfCheck(machine, commands);
    CheckEachIff(check, ts);
    forall i | 0 <= i < |ts| ensures check(ts[i]) == Returns([]) <==> CommandBound(ts[i].value, commands) {
      CheckCommandOfIff(machine, ts[i].value, commands);
    }
    if EachSilent(check, ts) {
      forall i | 0 <= i < |ts| ensures CommandBound(ts[i].value, commands) { assert check(ts[i]) == Returns([]); }
    }
  }

  ghost predicate TransitionsBound(ts: seq<Field>, events: set<string>) {
    forall i :: 0 <= i < |ts| ==> TransitionBound(ts[i].key, ts[i].value, events)
  }

  lemma CheckTransitionsIff(machine: string, ts: seq<Field>, events: set<string>)
    ensures CheckEach(TransitionCheck(machine, events), ts) == Returns([]) <==> TransitionsBound(ts, events)
  {
    var check := TransitionCheck(machine, events);
    CheckEachIff(check, ts);
    forall i | 0 <= i < |ts|
      ensures check(ts[i]) == Returns([]) <==> TransitionBound(ts[i].key, ts[i].value, events)
    {
      CheckTransitionIff(machine, ts[i].key, ts[i].value, events);
    }
    if EachSilent(check, ts) {
      forall i | 0 <= i < |ts| ensures TransitionBound(ts[i].key, ts[i].value, events) {
        assert check(ts[i]) == Returns([]);
      }
    }
  }

  ghost predicate MachineBound(f: Field, commands: set<string>, events: set<string>) {
    && !Nullish(f.value) && StatesBound(StatesOf(f.value), commands)
    && CommandsBound(TransitionsOf(f.value), commands) && TransitionsBound(TransitionsOf(f.value), events)
  }

  lemma CheckMachineIff(f: Field, commands: set<string>, events: set<string>)
    ensures CheckMachine(f, commands, events) == Returns([]) <==> MachineBound(f, commands, events)
  {
    var states, ts := StatesOf(f.value), TransitionsOf(f.value);
    var p, q := CheckEach(StateCheck(f.key, commands), states), CheckEach(CommandOfCheck(f.key, commands), ts);
    var r := CheckEach(TransitionCheck(f.key, events), ts);
    CheckStatesIff(f.key, states, commands);
    CheckCommandsIff(f.key, ts, commands);
    CheckTransitionsIff(f.key, ts, events);
    BothIff(q, r);
    BothIff(p, Both(q, r));
  }

  ghost predicate CommandsClosed(c: Catalogs, ids: set<string>) {
    Present(c.commands, "commands") && Present(c.events, "events") ==>
      forall i :: 0 <= i < |EntriesAt(c.commands, "commands")| ==>
        CommandClosed(EntriesAt(c.commands, "commands")[i], EntrySet(c.events, "events"), ids)
  }

  ghost predicate MachinesBound(c: Catalogs) {
    Present(c.machines, "state_machines") && Present(c.commands, "commands") ==>
      forall i :: 0 <= i < |EntriesAt(c.machines, "state_machines")| ==>
        MachineBound(EntriesAt(c.machines, "state_machines")[i], EntrySet(c.commands, "commands"),
                     EntrySet(c.events, "events"))
  }

  lemma CommandsIff(fs: seq<Field>, events: set<string>, capabilities: set<string>)
    ensures CheckEach(CommandCheck(events, capabilities), fs) == Returns([])
       <==> forall i :: 0 <= i < |fs| ==> CommandClosed(fs[i], events, capabilities)
  {
    var check := CommandCheck(events, capabilities);
    CheckEachIff(check, fs);
    forall i | 0 <= i < |fs| ensures check(fs[i]) == Returns([]) <==> CommandClosed(fs[i], events, capabilities) {
      CheckCommandIff(fs[i], events, capabilities);
    }
    if EachSilent(check, fs) {
      forall i | 0 <= i < |fs| ensures CommandClosed(fs[i], events, capabilities) {
        assert check(fs[i]) == Returns([]);
      }
    }
  }

  lemma MachinesIff(fs: seq<Field>, commands: set<string>, events: set<string>)
    ensures CheckEach(MachineCheck(commands, events), fs) == Returns([])
       <==> forall i :: 0 <= i < |fs| ==> MachineBound(fs[i], commands, events)
  {
    var check := MachineCheck(commands, events);
    CheckEachIff(check, fs);
    forall i | 0 <= i < |fs| ensures check(fs[i]) == Returns([]) <==> MachineBound(fs[i], commands, events) {
      CheckMachineIff(fs[i], commands, events);
    }
    if EachSilent(check, fs) {
      forall i | 0 <= i < |fs| ensures MachineBound(fs[i], commands, events) { assert check(fs[i]) == Returns([]); }
    }
  }

  lemma CommandErrorsIff(c: Catalogs, ids: set<string>)
    ensures CommandErrors(c, ids) == Returns([]) <==> CommandsClosed(c, ids)
  {
    CommandsIff(EntriesAt(c.commands, "commands"), EntrySet(c.events, "events"), ids);
  }

  lemma MachineErrorsIff(c: Catalogs)
    ensures MachineErrors(c) == Returns([]) <==> MachinesBound(c)
  {
    MachinesIff(EntriesAt(c.machines, "state_machines"), EntrySet(c.commands, "commands"),
                EntrySet(c.events, "events"));
  }

  /** The checks are silent exactly when every command is closed and every machine is bound. */
  lemma SilentIff(c: Catalogs)
    ensures ReferenceErrors(c) == Returns([])
       <==> Ids(c).Returns? && CommandsClosed(c, Ids(c).value) && MachinesBound(c)
  {
    if Ids(c).Returns? {
      var ids := Ids(c).value;
      CommandErrorsIff(c, ids);
      MachineErrorsIff(c);
      BothIff(CommandErrors(c, ids), MachineErrors(c));
    }
  }
}
