// All errors of the validation pass: those of the reference checks, and those on the domain model, the event
// envelope, the steps of sagas, stray definitions of commands and the constitution. Warnings are left out.

module Validator {
  import opened Text
  import opened JsonValue
  import opened Js
  import opened IrBuilder
  import opened ProtocolFiles
  import opened Validate

  const CONSTITUTION := "01_constitution"

  /** The documents the pass reads: the last of each kind. */
  datatype Sources = Sources(domainModel: Json, constitution: Json, sagas: Json, catalogs: Catalogs)

  function LastSources(files: seq<File>): Sources {
    Sources(LastDoc(files, DOMAIN_MODEL), LastDoc(files, CONSTITUTION), LastDoc(files, SAGAS), LastCatalogs(files))
  }

  // ---- the domain model and the event envelope ----

  /** Indexing throws at a domain without a definition. */
  predicate Readable(domainModel: Json) {
    forall i :: 0 <= i < |EntriesAt(domainModel, "domains")| ==> !Nullish(EntriesAt(domainModel, "domains")[i].value)
  }

  method IndexDomains(domainModel: Json) returns (ok: bool)
    ensures ok == Readable(domainModel)
  {
    var es := EntriesAt(domainModel, "domains");
    for i := 0 to |es|
      invariant forall j :: 0 <= j < i ==> !Nullish(es[j].value)
    {
      if Nullish(es[i].value) { return false; }
    }
    return true;
  }

  /** How many fields the event envelope declares. */
  function EnvelopeFields(events: Json): nat {
    var fields := Get(Get(events, "event_envelope"), "fields");
    if Falsy(fields) then 0 else |ObjectEntries(fields)|
  }

  function EnvelopeErrors(events: Json): seq<Diagnostic> {
    if EnvelopeFields(events) < 10 then [Diagnostic("SEM-003", "", Undef)] else []
  }

  // ---- the steps of sagas ----

  /** A step whose command is not in the catalog: the saga it belongs to and the command. */
  datatype Step = Step(saga: string, command: string)

  /** Commands inside the system and prose are not looked up. */
  predicate Resolved(step: Json, commands: set<string>) {
    var cmd := Get(step, "command");
    !cmd.Str? || cmd.text == "" || StartsWith(cmd.text, "system.internal.") || StartsWith(cmd.text, "system ")
    || Includes(cmd.text, " ") || cmd.text in commands
  }

  function SagaName(saga: Json): string {
    StringOf(OrElse(Get(saga, "saga_id"), Str("?")))
  }

  function StepsOf(saga: Json): Outcome<seq<Json>> {
    Iterate(OrElse(Get(saga, "steps"), Arr([])))
  }

  function UnresolvedSteps(name: string, steps: seq<Json>, commands: set<string>): seq<Step> {
    if steps == [] then []
    else
      var step := steps[|steps| - 1];
      UnresolvedSteps(name, steps[..|steps| - 1], commands)
      + (if Resolved(step, commands) then [] else [Step(name, Get(step, "command").text)])
  }

  /** The unresolved steps of the sagas, in order. */
  function Unresolved(sagas: seq<Json>, commands: set<string>): Outcome<seq<Step>> {
    if sagas == [] then Returns([])
    else
      var before :- Unresolved(sagas[..|sagas| - 1], commands);
      var saga := sagas[|sagas| - 1];
      var steps :- StepsOf(saga);
      Returns(before + UnresolvedSteps(SagaName(saga), steps, commands))
  }

  function StepKey(s: Step): string {
    "saga:" + s.saga + ":" + s.command
  }

  function StepKeys(ss: seq<Step>): set<string> {
    set i | 0 <= i < |ss| :: StepKey(ss[i])
  }

  /** One error for each key, at its first step. */
  function StepErrors(ss: seq<Step>): seq<Diagnostic> {
    if ss == [] then []
    else
      var front, s := ss[..|ss| - 1], ss[|ss| - 1];
      StepErrors(front)
      + (if StepKey(s) in StepKeys(front) then [] else [Diagnostic("REF-005", s.saga, Str(s.command))])
  }

  /** Templates are walked too, but what is found in them is a warning. */
  function SagaErrors(sagas: Json, commands: set<string>): Outcome<seq<Diagnostic>> {
    var steps :- Unresolved(ListOrNone(Get(sagas, "sagas")), commands);
    var templates :- Unresolved(ListOrNone(Get(sagas, "saga_templates")), commands);
    Returns(StepErrors(steps))
  }

  /** The loop over the steps of one saga. */
  method CheckStepsOf(name: string, steps: seq<Json>, commands: set<string>, ghost before: seq<Step>,
                      found: seq<Diagnostic>, seen: set<string>)
    returns (diagnostics: seq<Diagnostic>, keys: set<string>)
    requires found == StepErrors(before) && seen == StepKeys(before)
    ensures diagnostics == StepErrors(before + UnresolvedSteps(name, steps, commands))
    ensures keys == StepKeys(before + UnresolvedSteps(name, steps, commands))
  {
    diagnostics, keys := found, seen;
    ghost var done := before;
    NoSteps(name, steps, commands, before);
    for i := 0 to |steps|
      invariant done == before + UnresolvedSteps(name, steps[..i], commands)
      invariant diagnostics == StepErrors(done) && keys == StepKeys(done)
    {
      StepByStep(name, steps, commands, before, i);
      if Resolved(steps[i], commands) { continue; }
      var s := Step(name, Get(steps[i], "command").text);
      OneMoreStep(done, s);
      done := done + [s];
      if StepKey(s) !in keys {
        diagnostics := diagnostics + [Diagnostic("REF-005", s.saga, Str(s.command))];
        keys := keys + {StepKey(s)};
      }
    }
    assert steps[..|steps|] == steps;
  }

  lemma NoSteps(name: string, steps: seq<Json>, commands: set<string>, before: seq<Step>)
    ensures before == before + UnresolvedSteps(name, steps[..0], commands)
  {
    assert steps[..0] == [];
  }

  lemma StepByStep(name: string, steps: seq<Json>, commands: set<string>, before: seq<Step>, i: nat)
    requires i < |steps|
    ensures var done := before + UnresolvedSteps(name, steps[..i], commands);
            before + UnresolvedSteps(name, steps[..i + 1], commands)
            == if Resolved(steps[i], commands) then done else done + [Step(name, Get(steps[i], "command").text)]
  {
    var some := UnresolvedSteps(name, steps[..i], commands);
    assert steps[..i + 1][..i] == steps[..i];
    assert some + [] == some;
    if !Resolved(steps[i], commands) {
      var s := Step(name, Get(steps[i], "command").text);
      assert before + (some + [s]) == (before + some) + [s];
    }
  }

  lemma OneMoreStep(ss: seq<Step>, s: Step)
    ensures StepKeys(ss + [s]) == StepKeys(ss) + {StepKey(s)}
    ensures StepErrors(ss + [s])
         == if StepKey(s) in StepKeys(ss) then StepErrors(ss)
            else StepErrors(ss) + [Diagnostic("REF-005", s.saga, Str(s.command))]
  {
    var all := ss + [s];
    assert all[..|ss|] == ss && all[|ss|] == s;
    assert StepErrors(ss) + [] == StepErrors(ss);
    forall k ensures k in StepKeys(all) <==> k in StepKeys(ss) || k == StepKey(s) {
      if k in StepKeys(ss) {
        var i :| 0 <= i < |ss| && StepKey(ss[i]) == k;
        assert StepKey(all[i]) == k;
      }
      assert StepKey(all[|ss|]) == StepKey(s);
    }
  }

  /** The loop over the sagas; nothing when reading the steps of one throws. */
  method CheckSteps(sagas: seq<Json>, commands: set<string>) returns (r: Outcome<seq<Diagnostic>>)
    ensures r == match Unresolved(sagas, commands)
                 case Throws => Throws
                 case Returns(steps) => Returns(StepErrors(steps))
  {
    var diagnostics: seq<Diagnostic> := [];
    var seen: set<string> := {};
    ghost var done: seq<Step> := [];
    assert sagas[..0] == [];
    for i := 0 to |sagas|
      invariant Unresolved(sagas[..i], commands) == Returns(done)
      invariant diagnostics == StepErrors(done) && seen == StepKeys(done)
    {
      assert sagas[..i + 1][..i] == sagas[..i];
      var steps := StepsOf(sagas[i]);
      if steps.Throws? {
        UnreadableStays(sagas, commands, i + 1);
        return Throws;
      }
      diagnostics, seen := CheckStepsOf(SagaName(sagas[i]), steps.value, commands, done, diagnostics, seen);
      done := done + UnresolvedSteps(SagaName(sagas[i]), steps.value, commands);
    }
    assert sagas[..|sagas|] == sagas;
    return Returns(diagnostics);
  }

  lemma {:induction false} UnreadableStays(sagas: seq<Json>, commands: set<string>, n: nat)
    requires n <= |sagas| && Unresolved(sagas[..n], commands).Throws?
    ensures Unresolved(sagas, commands).Throws?
    decreases |sagas| - n
  {
    if n < |sagas| {
      assert sagas[..n + 1][..n] == sagas[..n];
      UnreadableStays(sagas, commands, n + 1);
    } else {
      assert sagas[..n] == sagas;
    }
  }

  // ---- definitions of commands outside the map of commands ----

  const SHAPE_KEYS := ["inputs", "outputs", "preconditions", "resulting_events", "required_payload"]

  function CountKeys(fs: seq<Field>, keys: seq<string>): nat {
    if keys == [] then 0 else (if HasKey(fs, keys[0]) then 1 else 0) + CountKeys(fs, keys[1..])
  }

  predicate CommandShaped(v: Json) {
    v.Obj? && CountKeys(v.fields, SHAPE_KEYS) >= 2
  }

  function StrayIn(section: string, entries: seq<Field>): seq<Diagnostic> {
    if entries == [] then []
    else
      var e := entries[|entries| - 1];
      StrayIn(section, entries[..|entries| - 1])
      + (if CommandShaped(e.value) then [Diagnostic("REF-006", section, Str(e.key))] else [])
  }

  /** A section of the catalog that is looked through. */
  predicate Foreign(section: Field) {
    section.key != "commands" && section.key != "meta" && (section.value.Obj? || section.value.Arr?)
  }

  function StrayErrors(sections: seq<Field>): seq<Diagnostic> {
    if sections == [] then []
    else
      var s := sections[|sections| - 1];
      StrayErrors(sections[..|sections| - 1]) + (if Foreign(s) then StrayIn(s.key, ObjectEntries(s.value)) else [])
  }

  /** `if (commandCatalog)`, and its entries. */
  function Sections(catalog: Json): seq<Field> {
    if Falsy(catalog) then [] else ObjectEntries(catalog)
  }

  method CheckStray(sections: seq<Field>) returns (diagnostics: seq<Diagnostic>)
    ensures diagnostics == StrayErrors(sections)
  {
    diagnostics := [];
    assert sections[..0] == [];
    for i := 0 to |sections|
      invariant diagnostics == StrayErrors(sections[..i])
    {
      assert sections[..i + 1][..i] == sections[..i];
      if !Foreign(sections[i]) { continue; }
      var entries := ObjectEntries(sections[i].value);
      ghost var before := diagnostics;
      assert entries[..0] == [] && before + [] == before;
      for j := 0 to |entries|
        invariant diagnostics == before + StrayIn(sections[i].key, entries[..j])
      {
        assert entries[..j + 1][..j] == entries[..j];
        if CommandShaped(entries[j].value) {
          diagnostics := diagnostics + [Diagnostic("REF-006", sections[i].key, Str(entries[j].key))];
        }
      }
      assert entries[..|entries|] == entries;
    }
    assert sections[..|sections|] == sections;
  }

  // ---- the invariants of the constitution ----

  const EXPECTED := ["INV-001", "INV-002", "INV-003", "INV-004", "INV-005",
                     "INV-006", "INV-007", "INV-008", "INV-009", "INV-010"]

  function InvariantIds(fs: seq<Field>): Outcome<set<string>> {
    if fs == [] then Returns({})
    else
      var before :- InvariantIds(fs[..|fs| - 1]);
      var inv := fs[|fs| - 1].value;
      if Nullish(inv) then Throws
      else
        var id := Get(inv, "id");
        Returns(if id.Str? then before + {id.text} else before)
  }

  function Invariants(constitution: Json): Outcome<set<string>> {
    var invs :- ElementsAt(constitution, "invariants");
    InvariantIds(invs)
  }

  function MissingErrors(expected: seq<string>, ids: set<string>): seq<Diagnostic> {
    if expected == [] then []
    else
      var e := expected[|expected| - 1];
      MissingErrors(expected[..|expected| - 1], ids) + (if e in ids then [] else [Diagnostic("INV-003", "", Str(e))])
  }

  function InvariantErrors(constitution: Json, ids: set<string>): seq<Diagnostic> {
    if Falsy(constitution) then [] else MissingErrors(EXPECTED, ids)
  }

  method CheckInvariants(constitution: Json, ids: set<string>) returns (diagnostics: seq<Diagnostic>)
    ensures diagnostics == InvariantErrors(constitution, ids)
  {
    diagnostics := [];
    if Falsy(constitution) { return; }
    assert EXPECTED[..0] == [];
    for i := 0 to |EXPECTED|
      invariant diagnostics == MissingErrors(EXPECTED[..i], ids)
    {
      assert EXPECTED[..i + 1][..i] == EXPECTED[..i];
      if EXPECTED[i] !in ids { diagnostics := diagnostics + [Diagnostic("INV-003", "", Str(EXPECTED[i]))]; }
    }
    assert EXPECTED[..|EXPECTED|] == EXPECTED;
  }

  // ---- the pass ----

  /** The errors in the order in which they are found. */
  function ValidationErrors(s: Sources): Outcome<seq<Diagnostic>> {
    if !Readable(s.domainModel) then Throws
    else
      var invariants :- Invariants(s.constitution);
      var references :- ReferenceErrors(s.catalogs);
      var steps :- SagaErrors(s.sagas, EntrySet(s.catalogs.commands, "commands"));
      var stray, missing := StrayErrors(Sections(s.catalogs.commands)), InvariantErrors(s.constitution, invariants);
      Returns(EnvelopeErrors(s.catalogs.events) + (references + (steps + (stray + missing))))
  }

  method ValidateReferences(files: seq<File>) returns (r: Outcome<seq<Diagnostic>>)
    ensures r == ValidationErrors(LastSources(files))
  {
    var domainModel := FindLast(files, DOMAIN_MODEL);
    var constitution := FindLast(files, CONSTITUTION);
    var sagas := FindLast(files, SAGAS);
    var commands := FindLast(files, COMMAND_CATALOG);
    var events := FindLast(files, EVENT_CATALOG);
    var readable := IndexDomains(domainModel);
    if !readable { return Throws; }
    var invariants := Invariants(constitution);
    if invariants.Throws? { return Throws; }
    var references := CheckReferences(files);
    if references.Throws? { return Throws; }
    var names := EntrySet(commands, "commands");
    var steps := CheckSteps(ListOrNone(Get(sagas, "sagas")), names);
    if steps.Throws? { return Throws; }
    var templates := CheckSteps(ListOrNone(Get(sagas, "saga_templates")), names);
    if templates.Throws? { return Throws; }
    var stray := CheckStray(Sections(commands));
    var missing := CheckInvariants(constitution, invariants.value);
    return Returns(EnvelopeErrors(events) + (references.value + (steps.value + (stray + missing))));
  }

  // ---- what the absence of errors means ----

  ghost predicate StepsResolved(sagas: seq<Json>, commands: set<string>) {
    forall i :: 0 <= i < |sagas| ==> SagaResolved(sagas[i], commands)
  }

  ghost predicate StepsReadable(sagas: seq<Json>) {
    forall i :: 0 <= i < |sagas| ==> StepsOf(sagas[i]).Returns?
  }

  lemma {:induction false} UnresolvedStepsIff(name: string, steps: seq<Json>, commands: set<string>)
    ensures UnresolvedSteps(name, steps, commands) == []
       <==> forall k :: 0 <= k < |steps| ==> Resolved(steps[k], commands)
  {
    if steps != [] {
      UnresolvedStepsIff(name, steps[..|steps| - 1], commands);
      assert forall k :: 0 <= k < |steps| - 1 ==> steps[..|steps| - 1][k] == steps[k];
    }
  }

  lemma {:induction false} UnresolvedReturns(sagas: seq<Json>, commands: set<string>)
    ensures Unresolved(sagas, commands).Returns? <==> StepsReadable(sagas)
  {
    if sagas != [] {
      UnresolvedReturns(sagas[..|sagas| - 1], commands);
      assert forall i :: 0 <= i < |sagas| - 1 ==> sagas[..|sagas| - 1][i] == sagas[i];
    }
  }

  ghost predicate SagaResolved(saga: Json, commands: set<string>) {
    StepsOf(saga).Returns?
    && forall k :: 0 <= k < |StepsOf(saga).value| ==> Resolved(StepsOf(saga).value[k], commands)
  }

  lemma SagasResolvedLast(sagas: seq<Json>, commands: set<string>)
    requires sagas != []
    ensures StepsResolved(sagas, commands)
       <==> StepsResolved(sagas[..|sagas| - 1], commands) && SagaResolved(sagas[|sagas| - 1], commands)
  {
    var front := sagas[..|sagas| - 1];
    if StepsResolved(front, commands) && SagaResolved(sagas[|sagas| - 1], commands) {
      forall i | 0 <= i < |sagas| ensures SagaResolved(sagas[i], commands) {
        if i < |front| { assert SagaResolved(front[i], commands); }
      }
    }
    if StepsResolved(sagas, commands) {
      forall i | 0 <= i < |front| ensures SagaResolved(front[i], commands) { assert SagaResolved(sagas[i], commands); }
    }
  }

  lemma NothingAdded(before: seq<Step>, more: seq<Step>)
    ensures before + more == [] <==> before == [] && more == []
  {
    assert |before + more| == |before| + |more|;
  }

  lemma {:induction false} UnresolvedIff(sagas: seq<Json>, commands: set<string>)
    ensures Unresolved(sagas, commands) == Returns([]) <==> StepsResolved(sagas, commands)
  {
    if sagas != [] {
      var front, saga := sagas[..|sagas| - 1], sagas[|sagas| - 1];
      UnresolvedIff(front, commands);
      SagasResolvedLast(sagas, commands);
      if StepsOf(saga).Returns? && Unresolved(front, commands).Returns? {
        var steps := StepsOf(saga).value;
        UnresolvedStepsIff(SagaName(saga), steps, commands);
        NothingAdded(Unresolved(front, commands).value, UnresolvedSteps(SagaName(saga), steps, commands));
      }
    }
  }

  lemma {:induction false} StepErrorsIff(ss: seq<Step>)
    ensures StepErrors(ss) == [] <==> ss == []
  {
    if |ss| > 1 {
      StepErrorsIff(ss[..|ss| - 1]);
    } else if |ss| == 1 {
      assert ss[..0] == [];
    }
  }

  lemma {:induction false} StrayInIff(section: string, entries: seq<Field>)
    ensures StrayIn(section, entries) == [] <==> forall i :: 0 <= i < |entries| ==> !CommandShaped(entries[i].value)
  {
    if entries != [] {
      StrayInIff(section, entries[..|entries| - 1]);
      assert forall i :: 0 <= i < |entries| - 1 ==> entries[..|entries| - 1][i] == entries[i];
    }
  }

  ghost predicate NoStray(sections: seq<Field>) {
    forall i :: 0 <= i < |sections| ==> Clean(sections[i])
  }

  ghost predicate Clean(section: Field) {
    Foreign(section) ==>
      forall j :: 0 <= j < |ObjectEntries(section.value)| ==> !CommandShaped(ObjectEntries(section.value)[j].value)
  }

  lemma NoStrayLast(sections: seq<Field>)
    requires sections != []
    ensures NoStray(sections) <==> NoStray(sections[..|sections| - 1]) && Clean(sections[|sections| - 1])
  {
    var front := sections[..|sections| - 1];
    if NoStray(front) && Clean(sections[|sections| - 1]) {
      forall i | 0 <= i < |sections| ensures Clean(sections[i]) { if i < |front| { assert Clean(front[i]); } }
    }
    if NoStray(sections) {
      forall i | 0 <= i < |front| ensures Clean(front[i]) { assert Clean(sections[i]); }
    }
  }

  lemma {:induction false} StrayIff(sections: seq<Field>)
    ensures StrayErrors(sections) == [] <==> NoStray(sections)
  {
    if sections != [] {
      var s := sections[|sections| - 1];
      StrayIff(sections[..|sections| - 1]);
      NoStrayLast(sections);
      if Foreign(s) { StrayInIff(s.key, ObjectEntries(s.value)); }
    }
  }

  lemma {:induction false} MissingIff(expected: seq<string>, ids: set<string>)
    ensures MissingErrors(expected, ids) == [] <==> forall i :: 0 <= i < |expected| ==> expected[i] in ids
  {
    if expected != [] {
      MissingIff(expected[..|expected| - 1], ids);
      assert forall i :: 0 <= i < |expected| - 1 ==> expected[..|expected| - 1][i] == expected[i];
    }
  }

  /** Every step of every saga names a known command, and the steps of the templates can be read. */
  ghost predicate SagasResolved(sagas: Json, commands: set<string>) {
    StepsResolved(ListOrNone(Get(sagas, "sagas")), commands) && StepsReadable(ListOrNone(Get(sagas, "saga_templates")))
  }

  lemma SagaErrorsIff(sagas: Json, commands: set<string>)
    ensures SagaErrors(sagas, commands) == Returns([]) <==> SagasResolved(sagas, commands)
  {
    var list, templates := ListOrNone(Get(sagas, "sagas")), ListOrNone(Get(sagas, "saga_templates"));
    UnresolvedIff(list, commands);
    UnresolvedReturns(templates, commands);
    if Unresolved(list, commands).Returns? { StepErrorsIff(Unresolved(list, commands).value); }
  }

  /** A constitution, if there is one, lists the ten invariants. */
  ghost predicate Constituted(constitution: Json) {
    && Invariants(constitution).Returns?
    && (!Falsy(constitution) ==> forall i :: 0 <= i < |EXPECTED| ==> EXPECTED[i] in Invariants(constitution).value)
  }

  lemma InvariantErrorsIff(constitution: Json)
    requires Invariants(constitution).Returns?
    ensures InvariantErrors(constitution, Invariants(constitution).value) == [] <==> Constituted(constitution)
  {
    MissingIff(EXPECTED, Invariants(constitution).value);
  }

  lemma FiveEmpty(a: seq<Diagnostic>, b: seq<Diagnostic>, c: seq<Diagnostic>, d: seq<Diagnostic>, e: seq<Diagnostic>)
    ensures a + (b + (c + (d + e))) == [] <==> a == [] && b == [] && c == [] && d == [] && e == []
  {
    assert |a + (b + (c + (d + e)))| == |a| + |b| + |c| + |d| + |e|;
  }

  lemma PartsEmpty(s: Sources)
    ensures ValidationErrors(s) == Returns([])
       <==> Readable(s.domainModel) && Invariants(s.constitution).Returns? && EnvelopeErrors(s.catalogs.events) == []
            && ReferenceErrors(s.catalogs) == Returns([])
            && SagaErrors(s.sagas, EntrySet(s.catalogs.commands, "commands")) == Returns([])
            && StrayErrors(Sections(s.catalogs.commands)) == []
            && InvariantErrors(s.constitution, Invariants(s.constitution).value) == []
  {
    var invariants, references := Invariants(s.constitution), ReferenceErrors(s.catalogs);
    var steps := SagaErrors(s.sagas, EntrySet(s.catalogs.commands, "commands"));
    if invariants.Returns? && references.Returns? && steps.Returns? {
      FiveEmpty(EnvelopeErrors(s.catalogs.events), references.value, steps.value,
                StrayErrors(Sections(s.catalogs.commands)), InvariantErrors(s.constitution, invariants.value));
    }
  }

  /** The pass reports no error at all exactly when the domain model can be read, the envelope has ten
      fields, every command is closed, every machine is bound, every step of a saga is resolved, no section
      of the catalog hides a command, and the constitution lists its invariants. */
  lemma NoErrorIff(s: Sources)
    ensures ValidationErrors(s) == Returns([])
       <==> Readable(s.domainModel) && EnvelopeFields(s.catalogs.events) >= 10 && Constituted(s.constitution)
            && Ids(s.catalogs).Returns? && CommandsClosed(s.catalogs, Ids(s.catalogs).value)
            && MachinesBound(s.catalogs)
            && SagasResolved(s.sagas, EntrySet(s.catalogs.commands, "commands"))
            && NoStray(Sections(s.catalogs.commands))
  {
    PartsEmpty(s);
    SilentIff(s.catalogs);
    SagaErrorsIff(s.sagas, EntrySet(s.catalogs.commands, "commands"));
    StrayIff(Sections(s.catalogs.commands));
    if Invariants(s.constitution).Returns? { InvariantErrorsIff(s.constitution); }
  }

  /** In particular the reference checks are then silent. */
  lemma NoErrorIsSilent(files: seq<File>)
    requires ValidationErrors(LastSources(files)) == Returns([])
    ensures ReferenceErrors(LastCatalogs(files)) == Returns([])
  {
    PartsEmpty(LastSources(files));
  }
}
