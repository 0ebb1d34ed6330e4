// Which node identifiers of the intermediate representation can clash: only dotted entity names, capability
// identifiers and saga identifiers. Where they do not, the representation does not depend on key order;
// where they do, it can.

module IrIds {
  import opened Text
  import opened Sorting
  import opened JsonValue
  import opened Js
  import opened IrRecipes
  import opened IrNodes
  import opened IrBuilder
  import opened IrOrder

  // ---- lists of names ----

  type Naming = Field -> seq<string>

  /** The names of all entries, in order. */
  function AllNames(names: Naming, fs: seq<Field>): seq<string> {
    if fs == [] then [] else names(fs[0]) + AllNames(names, fs[1..])
  }

  function Prefixed(prefix: string, xs: seq<string>): (r: seq<string>)
    ensures |r| == |xs| && forall i :: 0 <= i < |xs| ==> r[i] == prefix + xs[i]
  {
    seq(|xs|, i requires 0 <= i < |xs| => prefix + xs[i])
  }

  lemma PrefixedAppend(prefix: string, xs: seq<string>, ys: seq<string>)
    ensures Prefixed(prefix, xs + ys) == Prefixed(prefix, xs) + Prefixed(prefix, ys)
  {
  }

  lemma SamePrefix(prefix: string, a: string, b: string)
    requires prefix + a == prefix + b
    ensures a == b
  {
    assert (prefix + a)[|prefix|..] == a && (prefix + b)[|prefix|..] == b;
  }

  lemma PrefixedDistinct(prefix: string, xs: seq<string>)
    ensures Distinct(Prefixed(prefix, xs)) <==> Distinct(xs)
  {
    var r := Prefixed(prefix, xs);
    if Distinct(xs) {
      forall i, j | 0 <= i < j < |r| ensures r[i] != r[j] {
        if r[i] == r[j] { SamePrefix(prefix, xs[i], xs[j]); }
      }
    }
    if Distinct(r) {
      forall i, j | 0 <= i < j < |xs| ensures xs[i] != xs[j] { assert r[i] != r[j]; }
    }
  }

  ghost predicate Apart(a: seq<string>, b: seq<string>) {
    forall i, j :: 0 <= i < |a| && 0 <= j < |b| ==> a[i] != b[j]
  }

  lemma DistinctConcat(a: seq<string>, b: seq<string>)
    requires Apart(a, b)
    ensures Distinct(a + b) <==> Distinct(a) && Distinct(b)
  {
    var all := a + b;
    assert forall i :: 0 <= i < |a| ==> all[i] == a[i];
    assert forall i :: 0 <= i < |b| ==> all[|a| + i] == b[i];
    if Distinct(a) && Distinct(b) {
      forall i, j | 0 <= i < j < |all| ensures all[i] != all[j] {
        if i >= |a| { assert b[i - |a|] != b[j - |a|]; }
        else if j >= |a| { assert a[i] != b[j - |a|]; }
      }
    }
  }

  /** Identifiers of one sort: a prefix and the names after it. */
  datatype Part = Part(prefix: string, names: seq<string>)

  function Concat(parts: seq<Part>): seq<string> {
    if parts == [] then [] else Prefixed(parts[0].prefix, parts[0].names) + Concat(parts[1..])
  }

  predicate Unlike(p: string, q: string) {
    |p| >= 2 && |q| >= 2 && (p[0] != q[0] || p[1] != q[1])
  }

  ghost predicate AllUnlike(parts: seq<Part>) {
    forall i, j :: 0 <= i < j < |parts| ==> Unlike(parts[i].prefix, parts[j].prefix)
  }

  lemma ApartConcat(xs: seq<string>, a: seq<string>, b: seq<string>)
    requires Apart(xs, a) && Apart(xs, b)
    ensures Apart(xs, a + b)
  {
    forall i, j | 0 <= i < |xs| && 0 <= j < |a + b| ensures xs[i] != (a + b)[j] {
      if j < |a| { assert xs[i] != a[j]; } else { assert xs[i] != b[j - |a|]; }
    }
  }

  lemma UnlikeApart(p: Part, q: Part)
    requires Unlike(p.prefix, q.prefix)
    ensures Apart(Prefixed(p.prefix, p.names), Prefixed(q.prefix, q.names))
  {
    var a, b := Prefixed(p.prefix, p.names), Prefixed(q.prefix, q.names);
    forall i, j | 0 <= i < |a| && 0 <= j < |b| ensures a[i] != b[j] {
      assert a[i][0] == p.prefix[0] && a[i][1] == p.prefix[1];
      assert b[j][0] == q.prefix[0] && b[j][1] == q.prefix[1];
    }
  }

  lemma {:induction false} UnlikeApartAll(p: Part, parts: seq<Part>)
    requires forall i :: 0 <= i < |parts| ==> Unlike(p.prefix, parts[i].prefix)
    ensures Apart(Prefixed(p.prefix, p.names), Concat(parts))
  {
    if parts != [] {
      UnlikeApart(p, parts[0]);
      UnlikeApartAll(p, parts[1..]);
      ApartConcat(Prefixed(p.prefix, p.names), Prefixed(parts[0].prefix, parts[0].names), Concat(parts[1..]));
    }
  }

  /** Identifiers of different sorts never clash. */
  lemma {:induction false} ConcatDistinct(parts: seq<Part>)
    requires AllUnlike(parts)
    ensures Distinct(Concat(parts)) <==> forall i :: 0 <= i < |parts| ==> Distinct(parts[i].names)
  {
    if parts != [] {
      var p, rest := parts[0], parts[1..];
      assert AllUnlike(rest);
      ConcatDistinct(rest);
      UnlikeApartAll(p, rest);
      DistinctConcat(Prefixed(p.prefix, p.names), Concat(rest));
      PrefixedDistinct(p.prefix, p.names);
      assert forall i :: 0 < i < |parts| ==> parts[i] == rest[i - 1];
    }
  }

  // ---- the identifiers a loop makes ----

  function Ids(ns: seq<Node>): (r: seq<string>)
    ensures |r| == |ns| && forall i :: 0 <= i < |ns| ==> r[i] == ns[i].id
  {
    seq(|ns|, i requires 0 <= i < |ns| => ns[i].id)
  }

  lemma IdsAppend(a: seq<Node>, b: seq<Node>)
    ensures Ids(a + b) == Ids(a) + Ids(b)
  {
  }

  lemma UniqueIsDistinct(ns: seq<Node>)
    ensures UniqueIds(ns) <==> Distinct(Ids(ns))
  {
    if UniqueIds(ns) {
      forall i, j | 0 <= i < j < |ns| ensures Ids(ns)[i] != Ids(ns)[j] { assert ns[i].id != ns[j].id; }
    }
    if Distinct(Ids(ns)) {
      forall i, j | 0 <= i < j < |ns| ensures ns[i].id != ns[j].id { assert Ids(ns)[i] != Ids(ns)[j]; }
    }
  }

  /** A piece makes nodes with these identifiers, in this order. */
  ghost predicate Makes(p: Outcome<Piece>, prefix: string, names: seq<string>) {
    p.Returns? ==> Ids(p.value.nodes) == Prefixed(prefix, names)
  }

  lemma MakesJoin(p: Outcome<Piece>, q: Outcome<Piece>, prefix: string, a: seq<string>, b: seq<string>)
    requires Makes(p, prefix, a) && Makes(q, prefix, b)
    ensures Makes(Join2(p, q), prefix, a + b)
  {
    if p.Returns? && q.Returns? {
      IdsAppend(p.value.nodes, q.value.nodes);
      PrefixedAppend(prefix, a, b);
    }
  }

  lemma {:induction false} CollectMakes(visit: Visit, prefix: string, names: Naming, fs: seq<Field>)
    requires forall f :: Makes(visit(f), prefix, names(f))
    ensures Makes(Collect(visit, fs), prefix, AllNames(names, fs))
  {
    if fs != [] {
      CollectMakes(visit, prefix, names, fs[1..]);
      MakesJoin(visit(fs[0]), Collect(visit, fs[1..]), prefix, names(fs[0]), AllNames(names, fs[1..]));
    }
  }

  // ---- the seven loops ----

  function KeyName(): Naming {
    (f: Field) => [f.key]
  }

  /** Entities are named by their domain and their own name, with a dot in between. */
  function EntityNames(domain: string): Naming {
    (f: Field) => [domain + ("." + f.key)]
  }

  function DomainEntityNames(): Naming {
    (f: Field) => AllNames(EntityNames(f.key), EntriesAt(f.value, "entities"))
  }

  function CapabilityName(): Naming {
    (f: Field) => [StringOf(Get(f.value, "capability_id"))]
  }

  function SagaName(): Naming {
    (f: Field) => if Falsy(Get(f.value, "saga_id")) then [] else [StringOf(Get(f.value, "saga_id"))]
  }

  lemma OneNode(p: Outcome<Piece>, prefix: string, name: string)
    requires p.Returns? ==> |p.value.nodes| == 1 && p.value.nodes[0].id == prefix + name
    ensures Makes(p, prefix, [name])
  {
  }

  lemma DomainsMake(manifest: Json, num: Numbers, fs: seq<Field>)
    ensures Makes(Collect(Domains(manifest, num), fs), "domain:", AllNames(KeyName(), fs))
  {
    forall f ensures Makes(Domains(manifest, num)(f), "domain:", KeyName()(f)) {
      OneNode(DomainPiece(f.key, manifest, num), "domain:", f.key);
    }
    CollectMakes(Domains(manifest, num), "domain:", KeyName(), fs);
  }

  lemma EntityMakes(domain: string, f: Field, num: Numbers)
    ensures Makes(EntityPiece(domain, f, num), "entity:", [domain + ("." + f.key)])
  {
    assert "entity:" + domain + "." + f.key == "entity:" + (domain + ("." + f.key));
    OneNode(EntityPiece(domain, f, num), "entity:", domain + ("." + f.key));
  }

  lemma EntitiesMake(num: Numbers, fs: seq<Field>)
    ensures Makes(Collect(DomainEntities(num), fs), "entity:", AllNames(DomainEntityNames(), fs))
  {
    forall f ensures Makes(DomainEntities(num)(f), "entity:", DomainEntityNames()(f)) {
      forall g ensures Makes(Entities(f.key, num)(g), "entity:", EntityNames(f.key)(g)) { EntityMakes(f.key, g, num); }
      CollectMakes(Entities(f.key, num), "entity:", EntityNames(f.key), EntriesAt(f.value, "entities"));
    }
    CollectMakes(DomainEntities(num), "entity:", DomainEntityNames(), fs);
  }

  lemma CommandMakes(f: Field, recipe: seq<Binding>, a: Expr, b: Expr, c: Expr, num: Numbers)
    ensures Makes(CommandWith(f, recipe, a, b, c, num), "command:", [f.key])
  {
    OneNode(CommandWith(f, recipe, a, b, c, num), "command:", f.key);
  }

  lemma CommandsMake(num: Numbers, fs: seq<Field>)
    ensures Makes(Collect(Commands(num), fs), "command:", AllNames(KeyName(), fs))
  {
    forall f ensures Makes(Commands(num)(f), "command:", KeyName()(f)) {
      CommandMakes(f, COMMAND_NODE, COMMAND_DOMAIN, COMMAND_EVENTS, REQUIRED_CAPABILITY, num);
    }
    CollectMakes(Commands(num), "command:", KeyName(), fs);
  }

  lemma EventsMake(catalog: Json, num: Numbers, fs: seq<Field>)
    ensures Makes(Collect(Events(catalog, num), fs), "event:", AllNames(KeyName(), fs))
  {
    forall f ensures Makes(Events(catalog, num)(f), "event:", KeyName()(f)) {
      OneNode(EventPiece(f, catalog, num), "event:", f.key);
    }
    CollectMakes(Events(catalog, num), "event:", KeyName(), fs);
  }

  lemma CapabilitiesMake(num: Numbers, fs: seq<Field>)
    ensures Makes(Collect(Capabilities(num), fs), "capability:", AllNames(CapabilityName(), fs))
  {
    forall f ensures Makes(Capabilities(num)(f), "capability:", CapabilityName()(f)) {
      OneNode(CapabilityPiece(f, num), "capability:", StringOf(Get(f.value, "capability_id")));
    }
    CollectMakes(Capabilities(num), "capability:", CapabilityName(), fs);
  }

  lemma SagaMakes(f: Field, recipe: seq<Binding>, num: Numbers)
    ensures Makes(SagaWith(f, recipe, num), "saga:", SagaName()(f))
  {
    if !Falsy(Get(f.value, "saga_id")) {
      OneNode(SagaWith(f, recipe, num), "saga:", StringOf(Get(f.value, "saga_id")));
    }
  }

  lemma SagasMake(num: Numbers, fs: seq<Field>)
    ensures Makes(Collect(Sagas(num), fs), "saga:", AllNames(SagaName(), fs))
  {
    forall f ensures Makes(Sagas(num)(f), "saga:", SagaName()(f)) { SagaMakes(f, SAGA_NODE, num); }
    CollectMakes(Sagas(num), "saga:", SagaName(), fs);
  }

  lemma MachinesMake(num: Numbers, fs: seq<Field>)
    ensures Makes(Collect(Machines(num), fs), "state_machine:", AllNames(KeyName(), fs))
  {
    forall f ensures Makes(Machines(num)(f), "state_machine:", KeyName()(f)) {
      OneNode(MachinePiece(f, num), "state_machine:", f.key);
    }
    CollectMakes(Machines(num), "state_machine:", KeyName(), fs);
  }

  // ---- keys are distinct ----

  lemma {:induction false} KeysAre(fs: seq<Field>)
    ensures |AllNames(KeyName(), fs)| == |fs| && forall i :: 0 <= i < |fs| ==> AllNames(KeyName(), fs)[i] == fs[i].key
  {
    if fs != [] {
      KeysAre(fs[1..]);
      assert forall i :: 0 < i < |fs| ==> fs[i] == fs[1..][i - 1];
    }
  }

  lemma KeysDistinct(fs: seq<Field>)
    requires DistinctKeys(fs)
    ensures Distinct(AllNames(KeyName(), fs))
  {
    KeysAre(fs);
  }

  lemma EntriesDistinct(v: Json)
    requires v.Undef? || Parsed(v)
    ensures DistinctKeys(ObjectEntries(v))
  {
    match v
    case Arr(items) => IndexedDistinct(items);
    case Str(s) => IndexedDistinct(Chars(s));
    case _ =>
  }

  lemma IndexedDistinct(items: seq<Json>)
    ensures DistinctKeys(Indexed(items))
  {
    forall i, j | 0 <= i < j < |items| ensures Indexed(items)[i].key != Indexed(items)[j].key {
      if NatText(i) == NatText(j) { NatTextInjective(i, j); }
    }
  }

  lemma SortedKeysDistinct(fs: seq<Field>)
    requires DistinctKeys(fs)
    ensures DistinctKeys(Sort(fs, ByKey()))
  {
    var r := Sort(fs, ByKey());
    SortPermutes(fs, ByKey());
    assert Distinct(fs);
    PermutationStaysDistinct(fs, r);
    forall i, j | 0 <= i < j < |r| ensures r[i].key != r[j].key {
      assert r[i] in multiset(fs) && r[j] in multiset(fs);
      var a :| 0 <= a < |fs| && fs[a] == r[i];
      var b :| 0 <= b < |fs| && fs[b] == r[j];
      assert a != b;
    }
  }

  lemma DocEntriesDistinct(doc: Json, key: string)
    requires doc.Undef? || Parsed(doc)
    ensures DistinctKeys(EntriesAt(doc, key)) && DistinctKeys(Sort(EntriesAt(doc, key), ByKey()))
  {
    if doc.Obj? { ParsedField(doc.fields, key); }
    EntriesDistinct(Get(doc, key));
    SortedKeysDistinct(EntriesAt(doc, key));
  }

  lemma DefaultsDistinct()
    ensures DistinctKeys(DefaultEntries())
  {
    var ds := DEFAULT_DOMAINS;
    assert ds[0][0] == 'v' && ds[1][0] == 'l' && ds[2][0] == 't' && ds[3][0] == 'p' && ds[3][1] == 'a';
    assert ds[4][0] == 'i' && ds[4][1] == 'd' && ds[5][0] == 'p' && ds[5][1] == 'o' && ds[6][0] == 'a';
    assert ds[7][0] == 'g' && ds[8][0] == 'i' && ds[8][1] == 'n';
  }

  lemma DomainsDistinct(manifest: Json)
    requires manifest.Undef? || Parsed(manifest)
    ensures DistinctKeys(DomainEntries(manifest))
  {
    if manifest.Obj? { ParsedField(manifest.fields, "domains"); }
    DefaultsDistinct();
    EntriesDistinct(Get(manifest, "domains"));
    SortedKeysDistinct(UnsortedDomains(manifest));
  }

  // ---- the theorem ----

  function EntityRefs(d: Docs): seq<string> {
    AllNames(DomainEntityNames(), EntriesAt(d.domainModel, "domains"))
  }

  function CapabilityRefs(d: Docs): seq<string> {
    var caps := ElementsAt(d.capabilities, "capabilities");
    if caps.Throws? then [] else AllNames(CapabilityName(), caps.value)
  }

  function SagaRefs(d: Docs): seq<string> {
    AllNames(SagaName(), SagaEntries(d.sagas))
  }

  function Sorts(d: Docs): seq<Part> {
    [Part("domain:", AllNames(KeyName(), DomainEntries(d.manifest))),
     Part("entity:", EntityRefs(d)),
     Part("command:", AllNames(KeyName(), Sort(EntriesAt(d.commands, "commands"), ByKey()))),
     Part("event:", AllNames(KeyName(), Sort(EntriesAt(d.events, "events"), ByKey()))),
     Part("capability:", CapabilityRefs(d)),
     Part("saga:", SagaRefs(d)),
     Part("state_machine:", AllNames(KeyName(), EntriesAt(d.machines, "state_machines")))]
  }

  const PREFIXES := ["domain:", "entity:", "command:", "event:", "capability:", "saga:", "state_machine:"]

  lemma PrefixAt(d: Docs, i: nat)
    requires i < |Sorts(d)|
    ensures |Sorts(d)| == |PREFIXES| && Sorts(d)[i].prefix == PREFIXES[i]
  {
  }

  lemma PrefixesUnlike(i: nat, j: nat)
    requires i < j < |PREFIXES|
    ensures Unlike(PREFIXES[i], PREFIXES[j])
  {
    assert PREFIXES[0][0] == 'd' && PREFIXES[1][0] == 'e' && PREFIXES[2][0] == 'c' && PREFIXES[3][0] == 'e';
    assert PREFIXES[4][0] == 'c' && PREFIXES[5][0] == 's' && PREFIXES[6][0] == 's';
    assert PREFIXES[1][1] == 'n' && PREFIXES[3][1] == 'v' && PREFIXES[2][1] == 'o' && PREFIXES[4][1] == 'a';
    assert PREFIXES[5][1] == 'a' && PREFIXES[6][1] == 't';
  }

  lemma SortsUnlike(d: Docs)
    ensures AllUnlike(Sorts(d))
  {
    forall i, j | 0 <= i < j < |Sorts(d)| ensures Unlike(Sorts(d)[i].prefix, Sorts(d)[j].prefix) {
      PrefixAt(d, i);
      PrefixAt(d, j);
      PrefixesUnlike(i, j);
    }
  }

  ghost predicate MakesAll(p: Outcome<Piece>, parts: seq<Part>) {
    p.Returns? ==> Ids(p.value.nodes) == Concat(parts)
  }

  lemma MakesLast(p: Outcome<Piece>, part: Part)
    requires Makes(p, part.prefix, part.names)
    ensures MakesAll(p, [part])
  {
    assert [part][1..] == [];
  }

  lemma MakesMore(p: Outcome<Piece>, q: Outcome<Piece>, part: Part, parts: seq<Part>)
    requires Makes(p, part.prefix, part.names) && MakesAll(q, parts)
    ensures MakesAll(Join2(p, q), [part] + parts)
  {
    if p.Returns? && q.Returns? {
      IdsAppend(p.value.nodes, q.value.nodes);
      assert ([part] + parts)[1..] == parts;
    }
  }

  lemma SevenMake(p0: Outcome<Piece>, p1: Outcome<Piece>, p2: Outcome<Piece>, p3: Outcome<Piece>, p4: Outcome<Piece>,
                  p5: Outcome<Piece>, p6: Outcome<Piece>, a: Part, b: Part, c: Part, d: Part, e: Part, f: Part, g: Part)
    requires Makes(p0, a.prefix, a.names) && Makes(p1, b.prefix, b.names) && Makes(p2, c.prefix, c.names)
    requires Makes(p3, d.prefix, d.names) && Makes(p4, e.prefix, e.names) && Makes(p5, f.prefix, f.names)
    requires Makes(p6, g.prefix, g.names)
    ensures MakesAll(Join2(p0, Join2(p1, Join2(p2, Join2(p3, Join2(p4, Join2(p5, p6)))))), [a, b, c, d, e, f, g])
  {
    var q5 := Join2(p5, p6);
    var q4 := Join2(p4, q5);
    var q3 := Join2(p3, q4);
    var q2 := Join2(p2, q3);
    var q1 := Join2(p1, q2);
    MakesLast(p6, g);
    MakesMore(p5, p6, f, [g]);
    assert [f] + [g] == [f, g];
    MakesMore(p4, q5, e, [f, g]);
    assert [e] + [f, g] == [e, f, g];
    MakesMore(p3, q4, d, [e, f, g]);
    assert [d] + [e, f, g] == [d, e, f, g];
    MakesMore(p2, q3, c, [d, e, f, g]);
    assert [c] + [d, e, f, g] == [c, d, e, f, g];
    MakesMore(p1, q2, b, [c, d, e, f, g]);
    assert [b] + [c, d, e, f, g] == [b, c, d, e, f, g];
    MakesMore(p0, q1, a, [b, c, d, e, f, g]);
    assert [a] + [b, c, d, e, f, g] == [a, b, c, d, e, f, g];
  }

  lemma CapabilityPiecesMake(d: Docs, num: Numbers)
    ensures Makes(CapabilityPieces(d.capabilities, num), "capability:", CapabilityRefs(d))
  {
    var caps := ElementsAt(d.capabilities, "capabilities");
    if caps.Returns? { CapabilitiesMake(num, caps.value); }
  }

  lemma GatherMakes(d: Docs, num: Numbers)
    ensures MakesAll(Gather(d, num), Sorts(d))
  {
    var commands := Sort(EntriesAt(d.commands, "commands"), ByKey());
    var events := Sort(EntriesAt(d.events, "events"), ByKey());
    var domains, entities := DomainEntries(d.manifest), EntriesAt(d.domainModel, "domains");
    var sagas, machines := SagaEntries(d.sagas), EntriesAt(d.machines, "state_machines");
    DomainsMake(d.manifest, num, domains);
    EntitiesMake(num, entities);
    CommandsMake(num, commands);
    EventsMake(d.events, num, events);
    CapabilityPiecesMake(d, num);
    SagasMake(num, sagas);
    MachinesMake(num, machines);
    SevenMake(Collect(Domains(d.manifest, num), domains), Collect(DomainEntities(num), entities),
              Collect(Commands(num), commands), Collect(Events(d.events, num), events),
              CapabilityPieces(d.capabilities, num),
              Collect(Sagas(num), sagas), Collect(Machines(num), machines),
              Part("domain:", AllNames(KeyName(), domains)), Part("entity:", EntityRefs(d)),
              Part("command:", AllNames(KeyName(), commands)), Part("event:", AllNames(KeyName(), events)),
              Part("capability:", CapabilityRefs(d)), Part("saga:", SagaRefs(d)),
              Part("state_machine:", AllNames(KeyName(), machines)));
  }

  /** The documents that were there at all are parsed. */
  ghost predicate ParsedDocs(d: Docs) {
    && (d.manifest.Undef? || Parsed(d.manifest)) && (d.commands.Undef? || Parsed(d.commands))
    && (d.events.Undef? || Parsed(d.events)) && (d.machines.Undef? || Parsed(d.machines))
  }

  /** No two entities have the same dotted name, no two capabilities or sagas the same identifier. */
  ghost predicate NoClash(d: Docs) {
    Distinct(EntityRefs(d)) && Distinct(CapabilityRefs(d)) && Distinct(SagaRefs(d))
  }

  /** Node identifiers are unique exactly when no dotted entity names, capability identifiers or saga
      identifiers clash; nothing else ever does. */
  lemma UniqueIdsIff(d: Docs, num: Numbers)
    requires ParsedDocs(d) && Gather(d, num).Returns?
    ensures UniqueIds(Gather(d, num).value.nodes) <==> NoClash(d)
  {
    GatherMakes(d, num);
    UniqueIsDistinct(Gather(d, num).value.nodes);
    DistinctIffNoClash(d);
  }

  lemma DistinctIffNoClash(d: Docs)
    requires ParsedDocs(d)
    ensures Distinct(Concat(Sorts(d))) <==> NoClash(d)
  {
    SortsUnlike(d);
    ConcatDistinct(Sorts(d));
    KeyedAreDistinct(d);
    OnlyThree(Part("domain:", AllNames(KeyName(), DomainEntries(d.manifest))), Part("entity:", EntityRefs(d)),
              Part("command:", AllNames(KeyName(), Sort(EntriesAt(d.commands, "commands"), ByKey()))),
              Part("event:", AllNames(KeyName(), Sort(EntriesAt(d.events, "events"), ByKey()))),
              Part("capability:", CapabilityRefs(d)), Part("saga:", SagaRefs(d)),
              Part("state_machine:", AllNames(KeyName(), EntriesAt(d.machines, "state_machines"))));
  }

  lemma KeyedAreDistinct(d: Docs)
    requires ParsedDocs(d)
    ensures Distinct(AllNames(KeyName(), DomainEntries(d.manifest)))
    ensures Distinct(AllNames(KeyName(), Sort(EntriesAt(d.commands, "commands"), ByKey())))
    ensures Distinct(AllNames(KeyName(), Sort(EntriesAt(d.events, "events"), ByKey())))
    ensures Distinct(AllNames(KeyName(), EntriesAt(d.machines, "state_machines")))
  {
    DomainsDistinct(d.manifest);
    DocEntriesDistinct(d.commands, "commands");
    DocEntriesDistinct(d.events, "events");
    DocEntriesDistinct(d.machines, "state_machines");
    KeysDistinct(DomainEntries(d.manifest));
    KeysDistinct(Sort(EntriesAt(d.commands, "commands"), ByKey()));
    KeysDistinct(Sort(EntriesAt(d.events, "events"), ByKey()));
    KeysDistinct(EntriesAt(d.machines, "state_machines"));
  }

  lemma OnlyThree(a: Part, b: Part, c: Part, d: Part, e: Part, f: Part, g: Part)
    requires Distinct(a.names) && Distinct(c.names) && Distinct(d.names) && Distinct(g.names)
    ensures var parts := [a, b, c, d, e, f, g];
      (forall i :: 0 <= i < |parts| ==> Distinct(parts[i].names))
      <==> Distinct(b.names) && Distinct(e.names) && Distinct(f.names)
  {
    var parts := [a, b, c, d, e, f, g];
    assert parts[1] == b && parts[4] == e && parts[5] == f;
  }

  /** So the representation and its hash ignore key order whenever the documents are free of such clashes. */
  lemma NoClashIgnoresKeyOrder(a: Docs, b: Docs, version: Json, other: Json, num: Numbers, less: Collation,
                               h: string -> string)
    requires DocsEquiv(a, b) && Equiv(version, other) && OrderBlind(num) && StrictTotal(less)
    requires Gather(a, num).Returns? ==> NoClash(a)
    ensures BuildIR(a, version, num, less).Throws? <==> BuildIR(b, other, num, less).Throws?
    ensures BuildIR(a, version, num, less).Returns? ==>
              var x, y := BuildIR(a, version, num, less).value, BuildIR(b, other, num, less).value;
              SameIr(x, y) && h(IrText(x)) == h(IrText(y))
  {
    if Gather(a, num).Returns? { UniqueIdsIff(a, num); }
    IrIgnoresKeyOrder(a, b, version, other, num, less, h);
  }

  // ---- entities are built from any definition, and hold the name of their domain ----

  lemma {:induction false} GetLiteral(fs: seq<Field>, i: nat)
    requires i < |fs| && forall j :: i < j < |fs| ==> fs[j].key != fs[i].key
    ensures GetField(Literal(fs), fs[i].key) == fs[i].value
    decreases |fs|
  {
    var n := |fs| - 1;
    GetPut(Literal(fs[..n]), fs[n].key, fs[n].value, fs[i].key);
    if i < n { GetLiteral(fs[..n], i); }
  }

  lemma {:induction false} EvalAllAt(bs: seq<Binding>, env: Env, num: Numbers, i: nat)
    requires i < |bs| && EvalAll(bs, env, num).Returns?
    ensures |EvalAll(bs, env, num).value| == |bs| && Eval(bs[i].value, env, num).Returns?
    ensures EvalAll(bs, env, num).value[i] == Field(bs[i].key, Eval(bs[i].value, env, num).value)
  {
    if i > 0 { EvalAllAt(bs[1..], env, num, i - 1); }
    EvalAllLength(bs, env, num);
  }

  lemma {:induction false} EvalAllLength(bs: seq<Binding>, env: Env, num: Numbers)
    requires EvalAll(bs, env, num).Returns?
    ensures |EvalAll(bs, env, num).value| == |bs|
  {
    if bs != [] { EvalAllLength(bs[1..], env, num); }
  }

  lemma EntityIsCalm()
    ensures forall i :: 0 <= i < |ENTITY_NODE| ==> Calm(ENTITY_NODE[i].value)
  {
    assert Calm(Glue(Lit("."), Name)) && Calm(At(Self, "attributes"));
  }

  lemma EntityReturns(domain: string, name: string, num: Numbers)
    ensures EntityPiece(domain, Field(name, Obj([])), num).Returns?
  {
    var env := Env(name, domain, Obj([]), Null, 0);
    EntityIsCalm();
    forall i | 0 <= i < |ENTITY_NODE| ensures Eval(ENTITY_NODE[i].value, env, num).Returns? {
      CalmReturns(ENTITY_NODE[i].value, env, num);
    }
    EvalAllReturns(ENTITY_NODE, env, num);
  }

  lemma EntityNodeDomain(domain: string, f: Field, num: Numbers)
    requires EntityPiece(domain, f, num).Returns?
    ensures Get(NodeJson(EntityPiece(domain, f, num).value.nodes[0]), "domain") == Str(domain)
  {
    var n, env := EntityPiece(domain, f, num).value.nodes[0], Env(f.key, domain, f.value, Null, 0);
    EvalAllAt(ENTITY_NODE, env, num, 4);
    assert n.body[4] == Field("domain", Str(domain));
    forall j | 4 < j < |ENTITY_NODE| ensures n.body[j].key != "domain" {
      EvalAllAt(ENTITY_NODE, env, num, j);
      assert ENTITY_NODE[5].key[0] == 'e' && ENTITY_NODE[6].key[0] == 'a';
    }
    GetLiteral(n.body, 4);
    assert "type"[0] == 't' && "id"[0] == 'i';
    GetPut(Literal(n.body), "type", Str(n.kind), "domain");
    GetPut(Put(Literal(n.body), "type", Str(n.kind)), "id", Str(n.id), "domain");
  }
}
