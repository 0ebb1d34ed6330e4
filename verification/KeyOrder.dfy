// Exactly when the intermediate representation ignores the order of keys: when no two domains that a file can
// list in either order hold entities of one dotted name.

module KeyOrder {
  import opened Text
  import opened Sorting
  import opened JsonValue
  import opened JsonCanonical
  import opened Js
  import opened IrRecipes
  import opened IrNodes
  import opened IrBuilder
  import opened IrOrder
  import opened IrIds
  import opened NodeOrder

  // ---- the entities of one identifier, domain by domain ----

  /** What the domain `f` adds to the nodes with this identifier. */
  function Pick(f: Field, id: string, num: Numbers): seq<View> {
    var p := DomainEntities(num)(f);
    if p.Throws? then [] else Only(Views(p.value.nodes), id)
  }

  type Picker = Field -> seq<View>

  function Picking(id: string, num: Numbers): Picker {
    (f: Field) => Pick(f, id, num)
  }

  function Picks(fs: seq<Field>, pick: Picker): seq<View> {
    if fs == [] then [] else pick(fs[0]) + Picks(fs[1..], pick)
  }

  lemma {:induction false} PicksAre(fs: seq<Field>, id: string, num: Numbers)
    requires Collect(DomainEntities(num), fs).Returns?
    ensures Only(Views(Collect(DomainEntities(num), fs).value.nodes), id) == Picks(fs, Picking(id, num))
  {
    if fs != [] {
      var v := DomainEntities(num);
      PicksAre(fs[1..], id, num);
      ViewsAppend(v(fs[0]).value.nodes, Collect(v, fs[1..]).value.nodes);
      OnlyAppend(Views(v(fs[0]).value.nodes), Views(Collect(v, fs[1..]).value.nodes), id);
    }
  }

  lemma DomainUnique(f: Field, num: Numbers)
    requires Parsed(f.value) && DomainEntities(num)(f).Returns?
    ensures UniqueIds(DomainEntities(num)(f).value.nodes)
  {
    var es := EntriesAt(f.value, "entities");
    DocEntriesDistinct(f.value, "entities");
    KeysDistinct(es);
    EntityNamesAre(f.key, es);
    forall g ensures Makes(Entities(f.key, num)(g), "entity:", EntityNames(f.key)(g)) { EntityMakes(f.key, g, num); }
    CollectMakes(Entities(f.key, num), "entity:", EntityNames(f.key), es);
    DottedDistinct(f.key, es);
    DistinctNamesUnique(DomainEntities(num)(f), "entity:", AllNames(EntityNames(f.key), es));
  }

  lemma {:induction false} EntityNamesAre(domain: string, es: seq<Field>)
    ensures |AllNames(EntityNames(domain), es)| == |es|
    ensures forall i :: 0 <= i < |es| ==> AllNames(EntityNames(domain), es)[i] == domain + ("." + es[i].key)
  {
    if es != [] {
      EntityNamesAre(domain, es[1..]);
      assert forall i :: 0 < i < |es| ==> es[i] == es[1..][i - 1];
    }
  }

  lemma DottedDistinct(domain: string, es: seq<Field>)
    requires DistinctKeys(es)
    ensures Distinct(AllNames(EntityNames(domain), es))
  {
    var names := AllNames(EntityNames(domain), es);
    EntityNamesAre(domain, es);
    forall i, j | 0 <= i < j < |names| ensures names[i] != names[j] {
      if names[i] == names[j] {
        SamePrefix(domain, "." + es[i].key, "." + es[j].key);
        SamePrefix(".", es[i].key, es[j].key);
      }
    }
  }

  /** The domain has an entity with this identifier. */
  ghost predicate HasEntity(f: Field, id: string) {
    exists k :: 0 <= k < |EntriesAt(f.value, "entities")|
                && id == "entity:" + (f.key + ("." + EntriesAt(f.value, "entities")[k].key))
  }

  lemma PickIff(f: Field, id: string, num: Numbers)
    requires DomainEntities(num)(f).Returns?
    ensures Pick(f, id, num) != [] <==> HasEntity(f, id)
  {
    var es, ns := EntriesAt(f.value, "entities"), DomainEntities(num)(f).value.nodes;
    forall g ensures Makes(Entities(f.key, num)(g), "entity:", EntityNames(f.key)(g)) { EntityMakes(f.key, g, num); }
    CollectMakes(Entities(f.key, num), "entity:", EntityNames(f.key), es);
    EntityNamesAre(f.key, es);
    var names := Prefixed("entity:", AllNames(EntityNames(f.key), es));
    assert Ids(ns) == names && |ns| == |es|;
    forall k | 0 <= k < |es| ensures Views(ns)[k].id == "entity:" + (f.key + ("." + es[k].key)) {
      assert Ids(ns)[k] == names[k];
    }
    OnlyFinds(Views(ns), id);
    if Pick(f, id, num) != [] {
      var k :| 0 <= k < |Views(ns)| && Views(ns)[k].id == id;
      assert id == "entity:" + (f.key + ("." + es[k].key));
    }
  }

  lemma PickSmall(f: Field, id: string, num: Numbers)
    requires Parsed(f.value)
    ensures |Pick(f, id, num)| <= 1
  {
    if DomainEntities(num)(f).Returns? {
      DomainUnique(f, num);
      OnlyOne(DomainEntities(num)(f).value.nodes, id);
    }
  }

  lemma PickAlike(k: string, v: Json, w: Json, id: string, num: Numbers)
    requires k != PROTO && ParsedEquiv(v, w) && OrderBlind(num)
    ensures Pick(Field(k, v), id, num) == Pick(Field(k, w), id, num)
  {
    DomainEntitiesRespect(num);
    var p, q := DomainEntities(num)(Field(k, v)), DomainEntities(num)(Field(k, w));
    assert Alike(p, q);
    if p.Returns? {
      DomainUnique(Field(k, v), num);
      UniqueAgree(p, q);
      assert Only(Views(p.value.nodes), id) == Only(Views(q.value.nodes), id);
    }
  }

  /** The domains that add a node with this identifier. */
  function Adding(fs: seq<Field>, pick: Picker): seq<Field> {
    if fs == [] then []
    else (if pick(fs[0]) != [] then [fs[0]] else []) + Adding(fs[1..], pick)
  }

  lemma {:induction false} PicksOfAdding(fs: seq<Field>, pick: Picker)
    ensures Picks(Adding(fs, pick), pick) == Picks(fs, pick)
  {
    if fs != [] {
      var rest := Adding(fs[1..], pick);
      PicksOfAdding(fs[1..], pick);
      if pick(fs[0]) != [] {
        assert ([fs[0]] + rest)[1..] == rest;
      } else {
        assert [] + rest == rest;
      }
    }
  }

  lemma {:induction false} AddingAre(fs: seq<Field>, pick: Picker)
    ensures forall f :: f in Adding(fs, pick) <==> f in fs && pick(f) != []
    ensures forall f :: multiset(Adding(fs, pick))[f] == if pick(f) != [] then multiset(fs)[f] else 0
  {
    if fs != [] {
      AddingAre(fs[1..], pick);
      assert fs == [fs[0]] + fs[1..];
      assert multiset(fs) == multiset{fs[0]} + multiset(fs[1..]);
    }
  }

  // ---- the order in which an object lists its keys ----

  predicate Pairwise(fs: seq<Field>, r: (Field, Field) -> bool) {
    forall i, j :: 0 <= i < j < |fs| ==> r(fs[i], fs[j])
  }

  /** An array index stands behind smaller indices only. */
  predicate HostBefore(f: Field, g: Field) {
    IsIndex(g.key) ==> IsIndex(f.key) && IndexLess(f.key, g.key)
  }

  /** As the host language lists objects, at every depth: array indices first and in numeric order, the
      other keys in any order. */
  predicate HostOrdered(v: Json) {
    match v
    case Arr(items) => forall i :: 0 <= i < |items| ==> HostOrdered(items[i])
    case Obj(fs) => Pairwise(fs, HostBefore) && forall i :: 0 <= i < |fs| ==> HostOrdered(fs[i].value)
    case _ => true
  }

  predicate HostOrderedDocs(d: Docs) {
    && HostOrdered(d.manifest) && HostOrdered(d.domainModel) && HostOrdered(d.commands) && HostOrdered(d.events)
    && HostOrdered(d.capabilities) && HostOrdered(d.sagas) && HostOrdered(d.machines)
  }

  lemma {:induction false} AddingPairwise(fs: seq<Field>, r: (Field, Field) -> bool, pick: Picker)
    requires Pairwise(fs, r)
    ensures Pairwise(Adding(fs, pick), r)
  {
    if fs != [] {
      var rest := Adding(fs[1..], pick);
      forall i, j | 0 <= i < j < |fs[1..]| ensures r(fs[1..][i], fs[1..][j]) { assert r(fs[i + 1], fs[j + 1]); }
      AddingPairwise(fs[1..], r, pick);
      AddingAre(fs[1..], pick);
      forall j | 0 <= j < |rest| ensures r(fs[0], rest[j]) {
        assert rest[j] in fs[1..];
        var k :| 0 <= k < |fs[1..]| && fs[1..][k] == rest[j];
        assert r(fs[0], fs[k + 1]);
      }
    }
  }

  /** Of the domains that add this identifier, one at most has a name that is not an array index. */
  ghost predicate NoTwo(fs: seq<Field>, pick: Picker) {
    forall f, g :: f in fs && g in fs && f.key != g.key && pick(f) != [] && pick(g) != [] ==>
      IsIndex(f.key) || IsIndex(g.key)
  }

  predicate KeyOrdered(f: Field, g: Field) {
    KeyLess(f.key, g.key)
  }

  predicate OtherKey(f: Field, g: Field) {
    f.key != g.key
  }

  lemma AddingInOrder(fs: seq<Field>, pick: Picker)
    requires DistinctKeys(fs) && Pairwise(fs, HostBefore) && NoTwo(fs, pick)
    ensures Pairwise(Adding(fs, pick), KeyOrdered)
  {
    var a := Adding(fs, pick);
    AddingPairwise(fs, HostBefore, pick);
    AddingPairwise(fs, OtherKey, pick);
    AddingAre(fs, pick);
    forall i, j | 0 <= i < j < |a| ensures KeyOrdered(a[i], a[j]) {
      assert HostBefore(a[i], a[j]) && OtherKey(a[i], a[j]);
      assert a[i] in a && a[j] in a;
    }
  }

  lemma OrderedListsAgree(a: seq<Field>, b: seq<Field>)
    requires Pairwise(a, KeyOrdered) && Pairwise(b, KeyOrdered) && multiset(a) == multiset(b)
    ensures a == b
  {
    OrderedIsSorted(a);
    OrderedIsSorted(b);
    forall x, y | x in a && y in a && x != y ensures FieldLess(x, y) || FieldLess(y, x) {
      var i :| 0 <= i < |a| && a[i] == x;
      var j :| 0 <= j < |a| && a[j] == y;
      if i < j { assert KeyOrdered(a[i], a[j]); } else { assert KeyOrdered(a[j], a[i]); }
    }
    SortedIsUnique(a, b, FieldLess);
  }

  lemma OrderedIsSorted(a: seq<Field>)
    requires Pairwise(a, KeyOrdered)
    ensures Sorted(a, FieldLess)
  {
    forall i, j | 0 <= i < j < |a| ensures !FieldLess(a[j], a[i]) {
      assert KeyOrdered(a[i], a[j]);
      NotBoth(a[i].key, a[j].key);
    }
  }

  lemma PicksSorted(fs: seq<Field>, pick: Picker)
    requires DistinctKeys(fs) && Pairwise(fs, HostBefore) && NoTwo(fs, pick)
    ensures Picks(fs, pick) == Picks(Sort(fs, FieldLess), pick)
  {
    var s := Sort(fs, FieldLess);
    KeysInOrder(fs, s);
    SortPermutes(fs, FieldLess);
    AddingInOrder(fs, pick);
    AddingPairwise(s, KeyOrdered, pick);
    forall f ensures multiset(Adding(fs, pick))[f] == multiset(Adding(s, pick))[f] {
      AddingAre(fs, pick);
      AddingAre(s, pick);
    }
    OrderedListsAgree(Adding(fs, pick), Adding(s, pick));
    PicksOfAdding(fs, pick);
    PicksOfAdding(s, pick);
  }

  /** Domains that are the same up to key order add the same views. */
  ghost predicate Steady(pick: Picker) {
    forall k: string, v: Json, w: Json {:trigger pick(Field(k, v)), pick(Field(k, w))} ::
      k != PROTO && ParsedEquiv(v, w) ==> pick(Field(k, v)) == pick(Field(k, w))
  }

  lemma PickingIsSteady(id: string, num: Numbers)
    requires OrderBlind(num)
    ensures Steady(Picking(id, num))
  {
    var pick := Picking(id, num);
    forall k: string, v: Json, w: Json | k != PROTO && ParsedEquiv(v, w)
      ensures pick(Field(k, v)) == pick(Field(k, w))
    {
      PickAlike(k, v, w, id, num);
    }
  }

  lemma SteadyAt(pick: Picker, f: Field, g: Field)
    requires Steady(pick) && f.key == g.key && f.key != PROTO && ParsedEquiv(f.value, g.value)
    ensures pick(f) == pick(g)
  {
    assert f == Field(f.key, f.value) && g == Field(g.key, g.value);
    assert pick(Field(f.key, f.value)) == pick(Field(g.key, g.value));
  }

  lemma {:induction false} PicksMatch(a: seq<Field>, b: seq<Field>, pick: Picker)
    requires EntriesMatch(a, b) && Steady(pick)
    ensures Picks(a, pick) == Picks(b, pick)
  {
    if a != [] {
      SteadyAt(pick, a[0], b[0]);
      PicksMatch(a[1..], b[1..], pick);
    }
  }

  lemma MatchedPick(a: seq<Field>, b: seq<Field>, f: Field, pick: Picker) returns (g: Field)
    requires EntriesMatch(a, b) && Steady(pick) && f in b
    ensures g in a && g.key == f.key && pick(g) == pick(f)
  {
    var i :| 0 <= i < |b| && b[i] == f;
    g := a[i];
    SteadyAt(pick, g, f);
  }

  lemma NoTwoMatched(a: seq<Field>, b: seq<Field>, pick: Picker)
    requires EntriesMatch(a, b) && Steady(pick) && NoTwo(a, pick)
    ensures NoTwo(b, pick)
  {
    forall f, g | f in b && g in b && f.key != g.key && pick(f) != [] && pick(g) != []
      ensures IsIndex(f.key) || IsIndex(g.key)
    {
      var x := MatchedPick(a, b, f, pick);
      var y := MatchedPick(a, b, g, pick);
    }
  }

  lemma NoTwoSorted(fs: seq<Field>, pick: Picker)
    requires DistinctKeys(fs)
    ensures NoTwo(fs, pick) <==> NoTwo(Sort(fs, FieldLess), pick)
  {
    KeysInOrder(fs, Sort(fs, FieldLess));
  }

  /** Maps of domains that are the same up to key order add the nodes of the identifier in the same order. */
  lemma PicksOfMaps(fs: seq<Field>, gs: seq<Field>, pick: Picker)
    requires ParsedEquiv(Obj(fs), Obj(gs)) && Steady(pick) && NoTwo(fs, pick)
    requires Pairwise(fs, HostBefore) && Pairwise(gs, HostBefore)
    ensures Picks(fs, pick) == Picks(gs, pick)
  {
    var a, b := Sort(fs, FieldLess), Sort(gs, FieldLess);
    SortedMatch(fs, gs);
    NoTwoSorted(fs, pick);
    NoTwoMatched(a, b, pick);
    NoTwoSorted(gs, pick);
    PicksSorted(fs, pick);
    PicksSorted(gs, pick);
    PicksMatch(a, b, pick);
  }

  lemma PicksOfDocs(v: Json, w: Json, pick: Picker)
    requires ParsedEquiv(v, w) && HostOrdered(v) && HostOrdered(w) && Steady(pick)
    requires v.Obj? ==> NoTwo(v.fields, pick)
    ensures Picks(ObjectEntries(v), pick) == Picks(ObjectEntries(w), pick)
  {
    match v
    case Obj(fs) =>
      PicksOfMaps(fs, w.fields, pick);
    case Arr(items) =>
      ParsedItems(items, w.items);
      IndexedMatch(items, w.items);
      PicksMatch(Indexed(items), Indexed(w.items), pick);
    case _ =>
  }

  lemma HostField(fs: seq<Field>, k: string)
    requires HostOrdered(Obj(fs))
    ensures HostOrdered(GetField(fs, k))
  {
    GetFieldMember(fs, k);
    if !GetField(fs, k).Undef? {
      var i :| 0 <= i < |fs| && fs[i].value == GetField(fs, k);
      assert HostOrdered(fs[i].value);
    }
  }

  lemma {:induction false} GetFieldMember(fs: seq<Field>, k: string)
    ensures GetField(fs, k).Undef? || exists i :: 0 <= i < |fs| && fs[i].value == GetField(fs, k)
  {
    if fs != [] {
      if fs[0].key == k {
        assert fs[0].value == GetField(fs, k);
      } else {
        GetFieldMember(fs[1..], k);
        if i :| 0 <= i < |fs[1..]| && fs[1..][i].value == GetField(fs, k) { assert fs[i + 1].value == GetField(fs, k); }
      }
    }
  }

  lemma HostGet(v: Json, k: string)
    requires HostOrdered(v)
    ensures HostOrdered(Get(v, k))
  {
    if v.Obj? { HostField(v.fields, k); }
  }

  /** The domains of the domain model, if they come as a map. */
  function DomainMap(d: Docs): seq<Field> {
    var v := Get(d.domainModel, "domains");
    if v.Obj? then v.fields else []
  }

  /** Without two domains to exchange, the nodes of entities come in one order. */
  lemma EntitiesAgree(a: Docs, b: Docs, num: Numbers)
    requires DocsEquiv(a, b) && HostOrderedDocs(a) && HostOrderedDocs(b) && OrderBlind(num)
    requires EntityPart(a, num).Returns? && EntityPart(b, num).Returns?
    requires forall id :: NoTwo(DomainMap(a), Picking(id, num))
    ensures SameOnly(Views(EntityPart(a, num).value.nodes), Views(EntityPart(b, num).value.nodes))
  {
    assert PROTO[0] == '_';
    var v, w := Get(a.domainModel, "domains"), Get(b.domainModel, "domains");
    GetDoc(a.domainModel, b.domainModel, "domains");
    DocEquivIsEquiv(v, w);
    HostGet(a.domainModel, "domains");
    HostGet(b.domainModel, "domains");
    forall id
      ensures Only(Views(EntityPart(a, num).value.nodes), id) == Only(Views(EntityPart(b, num).value.nodes), id)
    {
      PicksAre(EntriesAt(a.domainModel, "domains"), id, num);
      PicksAre(EntriesAt(b.domainModel, "domains"), id, num);
      assert NoTwo(DomainMap(a), Picking(id, num));
      PickingIsSteady(id, num);
      if !Falsy(v) { PicksOfDocs(v, w, Picking(id, num)); }
    }
  }

  // ---- two domains that can be exchanged ----

  /** Entities of the two domains have one dotted name. */
  ghost predicate ShareName(f: Field, g: Field) {
    exists k, l ::
      0 <= k < |EntriesAt(f.value, "entities")| && 0 <= l < |EntriesAt(g.value, "entities")|
      && f.key + ("." + EntriesAt(f.value, "entities")[k].key) == g.key + ("." + EntriesAt(g.value, "entities")[l].key)
  }

  /** Neither name is an array index, so that the file decides which of the two comes first. */
  ghost predicate Exchangeable(f: Field, g: Field) {
    !IsIndex(f.key) && !IsIndex(g.key) && ShareName(f, g)
  }

  /** No two entities of different domains, neither domain named by an array index, share a dotted name. */
  ghost predicate NoMovableClash(d: Docs) {
    forall i, j :: 0 <= i < j < |DomainMap(d)| ==> !Exchangeable(DomainMap(d)[i], DomainMap(d)[j])
  }

  lemma ShareNameSymmetric(f: Field, g: Field)
    requires ShareName(f, g)
    ensures ShareName(g, f)
  {
    var k, l :|
      0 <= k < |EntriesAt(f.value, "entities")| && 0 <= l < |EntriesAt(g.value, "entities")|
      && f.key + ("." + EntriesAt(f.value, "entities")[k].key) == g.key + ("." + EntriesAt(g.value, "entities")[l].key);
  }

  lemma SharedFromId(f: Field, g: Field, id: string)
    requires HasEntity(f, id) && HasEntity(g, id)
    ensures ShareName(f, g)
  {
    var es, fs := EntriesAt(f.value, "entities"), EntriesAt(g.value, "entities");
    var k :| 0 <= k < |es| && id == "entity:" + (f.key + ("." + es[k].key));
    var l :| 0 <= l < |fs| && id == "entity:" + (g.key + ("." + fs[l].key));
    SamePrefix("entity:", f.key + ("." + es[k].key), g.key + ("." + fs[l].key));
  }

  lemma SharedId(f: Field, g: Field) returns (id: string)
    requires ShareName(f, g)
    ensures HasEntity(f, id) && HasEntity(g, id)
  {
    var es, fs := EntriesAt(f.value, "entities"), EntriesAt(g.value, "entities");
    var k, l :| 0 <= k < |es| && 0 <= l < |fs| && f.key + ("." + es[k].key) == g.key + ("." + fs[l].key);
    id := "entity:" + (f.key + ("." + es[k].key));
  }

  /** Every domain is visited without an error. */
  ghost predicate AllReturn(fs: seq<Field>, num: Numbers) {
    forall f :: f in fs ==> DomainEntities(num)(f).Returns?
  }

  lemma {:induction false} CollectedReturn(fs: seq<Field>, num: Numbers)
    requires Collect(DomainEntities(num), fs).Returns?
    ensures AllReturn(fs, num)
  {
    if fs != [] {
      CollectedReturn(fs[1..], num);
      assert fs == [fs[0]] + fs[1..];
    }
  }

  lemma OneIsIndexed(fs: seq<Field>, f: Field, g: Field, id: string)
    requires forall i, j :: 0 <= i < j < |fs| ==> !Exchangeable(fs[i], fs[j])
    requires f in fs && g in fs && f != g && HasEntity(f, id) && HasEntity(g, id)
    ensures IsIndex(f.key) || IsIndex(g.key)
  {
    SharedFromId(f, g, id);
    ShareNameSymmetric(f, g);
    var i :| 0 <= i < |fs| && fs[i] == f;
    var j :| 0 <= j < |fs| && fs[j] == g;
    assert i < j ==> !Exchangeable(fs[i], fs[j]);
    assert j < i ==> !Exchangeable(fs[j], fs[i]);
  }

  lemma NoClashNoTwo(fs: seq<Field>, id: string, num: Numbers)
    requires AllReturn(fs, num) && forall i, j :: 0 <= i < j < |fs| ==> !Exchangeable(fs[i], fs[j])
    ensures NoTwo(fs, Picking(id, num))
  {
    var pick := Picking(id, num);
    forall f | f in fs ensures pick(f) != [] <==> HasEntity(f, id) { PickIff(f, id, num); }
    forall f, g | f in fs && g in fs && f.key != g.key && pick(f) != [] && pick(g) != []
      ensures IsIndex(f.key) || IsIndex(g.key)
    {
      OneIsIndexed(fs, f, g, id);
    }
  }

  // ---- exchanging them shows ----

  /** The domain that a view of an entity belongs to. */
  function DomainOf(v: View): string {
    if v.meaning.VObj? && "domain" in v.meaning.fields && v.meaning.fields["domain"].VStr?
    then v.meaning.fields["domain"].text
    else ""
  }

  function DomainsOf(vs: seq<View>): (r: seq<string>)
    ensures |r| == |vs| && forall i :: 0 <= i < |vs| ==> r[i] == DomainOf(vs[i])
  {
    seq(|vs|, i requires 0 <= i < |vs| => DomainOf(vs[i]))
  }

  lemma DomainOfNode(n: Node, domain: string)
    requires Solid(NodeJson(n)) && Get(NodeJson(n), "domain") == Str(domain)
    ensures DomainOf(ViewOf(n)) == domain
  {
    assert "domain"[0] == 'd' && PROTO[0] == '_';
    GetMeaning(NodeJson(n).fields, "domain");
  }

  lemma EntityPieceDomain(domain: string, f: Field, num: Numbers)
    requires EntityPiece(domain, f, num).Returns?
    ensures forall n :: n in EntityPiece(domain, f, num).value.nodes ==> Get(NodeJson(n), "domain") == Str(domain)
  {
    EntityNodeDomain(domain, f, num);
    var n := EntityPiece(domain, f, num).value.nodes[0];
    assert EntityPiece(domain, f, num).value.nodes == [n];
  }

  lemma {:induction false} EntitiesDomain(domain: string, es: seq<Field>, num: Numbers)
    requires Collect(Entities(domain, num), es).Returns?
    ensures forall n :: n in Collect(Entities(domain, num), es).value.nodes ==>
      Get(NodeJson(n), "domain") == Str(domain)
  {
    if es != [] {
      EntitiesDomain(domain, es[1..], num);
      EntityPieceDomain(domain, es[0], num);
    }
  }

  lemma {:induction false} OnlyMembers(xs: seq<View>, id: string)
    ensures forall v :: v in Only(xs, id) ==> v in xs
  {
    if xs != [] { OnlyMembers(xs[1..], id); }
  }

  lemma PickDomain(f: Field, id: string, num: Numbers)
    requires f.key != PROTO && Parsed(f.value) && OrderBlind(num)
    ensures forall v :: v in Pick(f, id, num) ==> DomainOf(v) == f.key
  {
    var p := DomainEntities(num)(f);
    if p.Returns? {
      DomainEntitiesRespect(num);
      assert f == Field(f.key, f.value);
      assert Alike(DomainEntities(num)(Field(f.key, f.value)), DomainEntities(num)(Field(f.key, f.value)));
      EntitiesDomain(f.key, EntriesAt(f.value, "entities"), num);
      var ns := p.value.nodes;
      OnlyMembers(Views(ns), id);
      forall v | v in Pick(f, id, num) ensures DomainOf(v) == f.key {
        var i :| 0 <= i < |Views(ns)| && Views(ns)[i] == v;
        assert ns[i] in ns;
        DomainOfNode(ns[i], f.key);
      }
    }
  }

  ghost predicate PlainDomains(fs: seq<Field>) {
    DistinctKeys(fs) && forall i :: 0 <= i < |fs| ==> fs[i].key != PROTO && Parsed(fs[i].value)
  }

  /** Each domain adds one view at most, which names the domain. */
  ghost predicate Labelled(fs: seq<Field>, pick: Picker) {
    forall f :: f in fs ==> |pick(f)| <= 1 && forall v :: v in pick(f) ==> DomainOf(v) == f.key
  }

  lemma PicksAreLabelled(fs: seq<Field>, id: string, num: Numbers)
    requires PlainDomains(fs) && OrderBlind(num)
    ensures Labelled(fs, Picking(id, num))
  {
    forall f | f in fs
      ensures |Pick(f, id, num)| <= 1 && forall v :: v in Pick(f, id, num) ==> DomainOf(v) == f.key
    {
      PickSmall(f, id, num);
      PickDomain(f, id, num);
    }
  }

  lemma OneLabel(f: Field, p: seq<View>, rest: seq<View>)
    requires |p| <= 1 && forall v :: v in p ==> DomainOf(v) == f.key
    ensures DomainsOf(p + rest) == (if p != [] then [f.key] else []) + DomainsOf(rest)
  {
    if p != [] {
      assert p[0] in p;
      assert p == [p[0]];
    } else {
      assert p + rest == rest;
    }
  }

  lemma {:induction false} DomainsOfPicks(fs: seq<Field>, pick: Picker)
    requires Labelled(fs, pick)
    ensures DomainsOf(Picks(fs, pick)) == Keys(Adding(fs, pick))
  {
    if fs != [] {
      DomainsOfPicks(fs[1..], pick);
      assert fs[0] in fs;
      OneLabel(fs[0], pick(fs[0]), Picks(fs[1..], pick));
      KeysOfMore(if pick(fs[0]) != [] then [fs[0]] else [], Adding(fs[1..], pick));
    }
  }

  lemma KeysOfMore(first: seq<Field>, rest: seq<Field>)
    requires |first| <= 1
    ensures Keys(first + rest) == (if first == [] then [] else [first[0].key]) + Keys(rest)
  {
    if first == [] { assert first + rest == rest; } else { assert (first + rest)[1..] == rest; }
  }

  lemma AddingFirst(fs: seq<Field>, pick: Picker)
    requires fs != []
    ensures Adding(fs, pick) == if pick(fs[0]) != [] then [fs[0]] + Adding(fs[1..], pick) else Adding(fs[1..], pick)
  {
    assert [] + Adding(fs[1..], pick) == Adding(fs[1..], pick);
  }

  lemma FirstPrecedes(fs: seq<Field>, j: nat, pick: Picker)
    requires 0 < j < |fs| && pick(fs[0]) != [] && pick(fs[j]) != []
    ensures Precedes(Adding(fs, pick), fs[0], fs[j])
  {
    var tail := fs[1..];
    AddingFirst(fs, pick);
    AddingAre(tail, pick);
    assert tail[j - 1] == fs[j] && tail[j - 1] in tail;
    PrecedesFirst(fs[0], Adding(tail, pick), fs[j]);
  }

  lemma LaterPrecedes(fs: seq<Field>, x: Field, y: Field, pick: Picker)
    requires fs != [] && Precedes(Adding(fs[1..], pick), x, y)
    ensures Precedes(Adding(fs, pick), x, y)
  {
    AddingFirst(fs, pick);
    if pick(fs[0]) != [] { PrecedesAfter(fs[0], Adding(fs[1..], pick), x, y); }
  }

  lemma {:induction false} AddingPrecedes(fs: seq<Field>, i: nat, j: nat, pick: Picker)
    requires i < j < |fs| && pick(fs[i]) != [] && pick(fs[j]) != []
    ensures Precedes(Adding(fs, pick), fs[i], fs[j])
  {
    if i == 0 {
      FirstPrecedes(fs, j, pick);
    } else {
      assert fs[1..][i - 1] == fs[i] && fs[1..][j - 1] == fs[j];
      AddingPrecedes(fs[1..], i - 1, j - 1, pick);
      LaterPrecedes(fs, fs[i], fs[j], pick);
    }
  }

  lemma KeysPrecede(a: seq<Field>, x: Field, y: Field)
    requires Precedes(a, x, y)
    ensures Precedes(Keys(a), x.key, y.key)
  {
    var i, j :| 0 <= i < j < |a| && a[i] == x && a[j] == y;
    assert Keys(a)[i] == x.key && Keys(a)[j] == y.key;
  }

  function Exchanged(fs: seq<Field>, i: nat, j: nat): seq<Field>
    requires i < j < |fs|
  {
    fs[i := fs[j]][j := fs[i]]
  }

  lemma ExchangedMembers(fs: seq<Field>, i: nat, j: nat)
    requires i < j < |fs|
    ensures forall f :: f in Exchanged(fs, i, j) <==> f in fs
  {
    var s := Exchanged(fs, i, j);
    forall f ensures f in s <==> f in fs {
      if f in fs {
        var k :| 0 <= k < |fs| && fs[k] == f;
        assert s[if k == i then j else if k == j then i else k] == f;
      }
    }
  }

  lemma AddingDistinct(fs: seq<Field>, pick: Picker)
    requires DistinctKeys(fs)
    ensures Distinct(Keys(Adding(fs, pick)))
  {
    var a := Adding(fs, pick);
    AddingPairwise(fs, OtherKey, pick);
    forall i, j | 0 <= i < j < |Keys(a)| ensures Keys(a)[i] != Keys(a)[j] { assert OtherKey(a[i], a[j]); }
  }

  lemma ExchangedPlain(fs: seq<Field>, i: nat, j: nat)
    requires i < j < |fs| && PlainDomains(fs)
    ensures PlainDomains(Exchanged(fs, i, j))
  {
    var s := Exchanged(fs, i, j);
    forall a, b | 0 <= a < b < |s| ensures s[a].key != s[b].key {
      var x := if a == i then j else if a == j then i else a;
      var y := if b == i then j else if b == j then i else b;
      assert s[a] == fs[x] && s[b] == fs[y] && x != y;
    }
    ExchangedMembers(fs, i, j);
    forall a | 0 <= a < |s| ensures s[a].key != PROTO && Parsed(s[a].value) { assert s[a] in s; }
  }

  lemma OneOrderOnly(a: seq<Field>, b: seq<Field>, x: Field, y: Field)
    requires Precedes(a, x, y) && Precedes(b, y, x) && Distinct(Keys(a))
    ensures Keys(a) != Keys(b)
  {
    KeysPrecede(a, x, y);
    KeysPrecede(b, y, x);
    OneOrder(Keys(a), x.key, y.key);
  }

  /** The exchange puts the nodes of the shared identifier in another order. */
  lemma ExchangedPicks(fs: seq<Field>, i: nat, j: nat, pick: Picker)
    requires i < j < |fs| && DistinctKeys(fs) && Labelled(fs, pick) && pick(fs[i]) != [] && pick(fs[j]) != []
    ensures Picks(fs, pick) != Picks(Exchanged(fs, i, j), pick)
  {
    var s := Exchanged(fs, i, j);
    ExchangedLabelled(fs, i, j, pick);
    DomainsOfPicks(fs, pick);
    DomainsOfPicks(s, pick);
    ExchangedOrder(fs, i, j, pick);
    AddingDistinct(fs, pick);
    OneOrderOnly(Adding(fs, pick), Adding(s, pick), fs[i], fs[j]);
  }

  lemma ExchangedLabelled(fs: seq<Field>, i: nat, j: nat, pick: Picker)
    requires i < j < |fs| && Labelled(fs, pick)
    ensures Labelled(Exchanged(fs, i, j), pick)
  {
    ExchangedMembers(fs, i, j);
  }

  lemma ExchangedOrder(fs: seq<Field>, i: nat, j: nat, pick: Picker)
    requires i < j < |fs| && pick(fs[i]) != [] && pick(fs[j]) != []
    ensures Precedes(Adding(fs, pick), fs[i], fs[j]) && Precedes(Adding(Exchanged(fs, i, j), pick), fs[j], fs[i])
  {
    var s := Exchanged(fs, i, j);
    assert s[i] == fs[j] && s[j] == fs[i];
    AddingPrecedes(fs, i, j, pick);
    AddingPrecedes(s, i, j, pick);
  }

  // ---- writing the exchange into the documents ----

  lemma SameMembersSameMeaning(fs: seq<Field>, gs: seq<Field>)
    requires DistinctKeys(fs) && DistinctKeys(gs) && forall f :: f in fs <==> f in gs
    ensures FieldMeanings(fs) == FieldMeanings(gs)
  {
    FieldMeaningsAre(fs);
    FieldMeaningsAre(gs);
    forall k ensures k in FieldMeanings(fs) <==> k in FieldMeanings(gs) {
      if k in FieldMeanings(fs) {
        var i :| 0 <= i < |fs| && fs[i].key == k && Kept(fs[i]);
        assert fs[i] in gs;
      }
      if k in FieldMeanings(gs) {
        var i :| 0 <= i < |gs| && gs[i].key == k && Kept(gs[i]);
        assert gs[i] in fs;
      }
    }
    forall k | k in FieldMeanings(fs) ensures FieldMeanings(fs)[k] == FieldMeanings(gs)[k] {
      var i :| 0 <= i < |fs| && fs[i].key == k && Kept(fs[i]);
      assert fs[i] in gs;
      var j :| 0 <= j < |gs| && gs[j] == fs[i];
    }
  }

  lemma ParsedPlain(fs: seq<Field>)
    ensures Parsed(Obj(fs)) <==> PlainDomains(fs)
  {
  }

  lemma ExchangedEquiv(fs: seq<Field>, i: nat, j: nat)
    requires i < j < |fs| && Parsed(Obj(fs))
    ensures ParsedEquiv(Obj(fs), Obj(Exchanged(fs, i, j)))
  {
    ParsedPlain(fs);
    ExchangedPlain(fs, i, j);
    ParsedPlain(Exchanged(fs, i, j));
    ExchangedMembers(fs, i, j);
    SameMembersSameMeaning(fs, Exchanged(fs, i, j));
  }

  lemma ExchangedHost(fs: seq<Field>, i: nat, j: nat)
    requires i < j < |fs| && HostOrdered(Obj(fs)) && !IsIndex(fs[i].key) && !IsIndex(fs[j].key)
    ensures HostOrdered(Obj(Exchanged(fs, i, j)))
  {
    var s := Exchanged(fs, i, j);
    forall b | i < b < |fs| ensures !IsIndex(fs[b].key) { assert HostBefore(fs[i], fs[b]); }
    forall a, b | 0 <= a < b < |s| ensures HostBefore(s[a], s[b]) {
      if IsIndex(s[b].key) { assert s[b] == fs[b] && s[a] == fs[a] && HostBefore(fs[a], fs[b]); }
    }
    ExchangedMembers(fs, i, j);
    forall a | 0 <= a < |s| ensures HostOrdered(s[a].value) {
      assert s[a] in fs;
      var k :| 0 <= k < |fs| && fs[k] == s[a];
    }
  }

  lemma {:induction false} PutKeeps(fs: seq<Field>, k: string, v: Json)
    requires HasKey(fs, k)
    ensures Keys(Put(fs, k, v)) == Keys(fs)
    ensures forall i :: 0 <= i < |fs| ==> Put(fs, k, v)[i].value == fs[i].value || Put(fs, k, v)[i].value == v
  {
    HasKeyTail(fs, k);
    if fs[0].key != k {
      var p, q := Put(fs, k, v), Put(fs[1..], k, v);
      PutKeeps(fs[1..], k, v);
      assert p == [fs[0]] + q;
      assert |q| == |Keys(q)| && |fs[1..]| == |Keys(fs[1..])|;
      forall i | 0 < i < |fs| ensures p[i].value == fs[i].value || p[i].value == v {
        assert p[i] == q[i - 1] && fs[i] == fs[1..][i - 1];
      }
    } else {
      assert Keys(Put(fs, k, v)) == [k] + Keys(fs[1..]);
    }
  }

  lemma PutHost(fs: seq<Field>, k: string, v: Json)
    requires HostOrdered(Obj(fs)) && HasKey(fs, k) && HostOrdered(v)
    ensures HostOrdered(Obj(Put(fs, k, v)))
  {
    var p := Put(fs, k, v);
    PutKeeps(fs, k, v);
    assert |p| == |Keys(p)| == |Keys(fs)| == |fs|;
    forall i | 0 <= i < |p| ensures p[i].key == fs[i].key && HostOrdered(p[i].value) {
      assert Keys(p)[i] == Keys(fs)[i];
    }
    forall i, j | 0 <= i < j < |p| ensures HostBefore(p[i], p[j]) { assert HostBefore(fs[i], fs[j]); }
  }

  lemma PutParsed(fs: seq<Field>, k: string, v: Json)
    requires Parsed(Obj(fs)) && Parsed(v) && k != PROTO
    ensures Parsed(Obj(Put(fs, k, v)))
  {
    var p := Put(fs, k, v);
    PutIs(fs, k, v);
    forall i | 0 <= i < |p| ensures p[i].key != PROTO && Parsed(p[i].value) {
      assert p[i] in p;
      if p[i] != Field(k, v) { assert p[i] in fs; }
    }
  }

  lemma PutEquivalent(fs: seq<Field>, k: string, v: Json, w: Json)
    requires Parsed(Obj(fs)) && k != PROTO && !IsIndex(k) && GetField(fs, k) == v && ParsedEquiv(v, w)
    ensures ParsedEquiv(Obj(fs), Obj(Put(fs, k, w)))
  {
    PutParsed(fs, k, w);
    ParsedFields(fs);
    PutMeaning(fs, k, w);
    GetMeaning(fs, k);
  }

  /** The domain model with the two domains exchanged. */
  function WithDomains(model: Json, fs: seq<Field>): Json
    requires model.Obj?
  {
    Obj(Put(model.fields, "domains", Obj(fs)))
  }

  lemma {:induction false} GotIsThere(fs: seq<Field>, k: string)
    requires !GetField(fs, k).Undef?
    ensures HasKey(fs, k)
  {
    HasKeyTail(fs, k);
    if fs[0].key != k { GotIsThere(fs[1..], k); }
  }

  lemma ModelExchanged(model: Json, fs: seq<Field>, i: nat, j: nat)
    requires Parsed(model) && HostOrdered(model) && Get(model, "domains") == Obj(fs)
    requires i < j < |fs| && !IsIndex(fs[i].key) && !IsIndex(fs[j].key)
    ensures ParsedEquiv(model, WithDomains(model, Exchanged(fs, i, j)))
    ensures HostOrdered(WithDomains(model, Exchanged(fs, i, j)))
    ensures Get(WithDomains(model, Exchanged(fs, i, j)), "domains") == Obj(Exchanged(fs, i, j))
  {
    var s := Exchanged(fs, i, j);
    assert "domains"[0] == 'd' && PROTO[0] == '_';
    ParsedField(model.fields, "domains");
    HostField(model.fields, "domains");
    GotIsThere(model.fields, "domains");
    ExchangedEquiv(fs, i, j);
    ExchangedHost(fs, i, j);
    PutEquivalent(model.fields, "domains", Obj(fs), Obj(s));
    PutHost(model.fields, "domains", Obj(s));
    GetPut(model.fields, "domains", Obj(s), "domains");
  }

  // ---- the theorem ----

  /** Documents with the exchange differ in the order of the entities with the shared name. */
  lemma ExchangeShows(a: Docs, b: Docs, fs: seq<Field>, i: nat, j: nat, num: Numbers)
    requires DocsEquiv(a, b) && OrderBlind(num) && EntityPart(a, num).Returns? && EntityPart(b, num).Returns?
    requires Get(a.domainModel, "domains") == Obj(fs) && i < j < |fs| && Exchangeable(fs[i], fs[j])
    requires Get(b.domainModel, "domains") == Obj(Exchanged(fs, i, j))
    ensures !SameOnly(Views(EntityPart(a, num).value.nodes), Views(EntityPart(b, num).value.nodes))
  {
    var s := Exchanged(fs, i, j);
    ParsedField(a.domainModel.fields, "domains");
    ParsedPlain(fs);
    CollectedReturn(fs, num);
    var id := SharedId(fs[i], fs[j]);
    PickIff(fs[i], id, num);
    PickIff(fs[j], id, num);
    PicksAreLabelled(fs, id, num);
    ExchangedPicks(fs, i, j, Picking(id, num));
    PicksAre(fs, id, num);
    PicksAre(s, id, num);
    assert Only(Views(EntityPart(a, num).value.nodes), id) != Only(Views(EntityPart(b, num).value.nodes), id);
  }

  /** Both compile, to the same hashed text. */
  predicate SameText(x: Outcome<Ir>, y: Outcome<Ir>) {
    x.Returns? && y.Returns? && IrText(x.value) == IrText(y.value)
  }

  /** Both compile, to different hashed texts. */
  predicate TextsDiffer(x: Outcome<Ir>, y: Outcome<Ir>) {
    x.Returns? && y.Returns? && IrText(x.value) != IrText(y.value)
  }

  /** Whatever the order of keys in which the documents are written, the same text is hashed. */
  ghost predicate KeyOrderFree(d: Docs, version: Json, num: Numbers, less: Collation) {
    forall b, other :: DocsEquiv(d, b) && HostOrderedDocs(b) && Equiv(version, other) ==>
      SameText(BuildIR(d, version, num, less), BuildIR(b, other, num, less))
  }

  lemma NoClashIsFree(a: Docs, b: Docs, version: Json, other: Json, num: Numbers, less: Collation)
    requires DocsEquiv(a, a) && DocsEquiv(a, b) && HostOrderedDocs(a) && HostOrderedDocs(b)
    requires Equiv(version, other) && OrderBlind(num) && StrictTotal(less) && Gather(a, num).Returns?
    requires NoMovableClash(a)
    ensures SameText(BuildIR(a, version, num, less), BuildIR(b, other, num, less))
  {
    SameTextIff(a, b, version, other, num, less);
    OnlyEntitiesMatter(a, b, num);
    MapReturns(a, num);
    forall id ensures NoTwo(DomainMap(a), Picking(id, num)) { NoClashNoTwo(DomainMap(a), id, num); }
    EntitiesAgree(a, b, num);
  }

  lemma MapReturns(d: Docs, num: Numbers)
    requires EntityPart(d, num).Returns?
    ensures AllReturn(DomainMap(d), num)
  {
    CollectedReturn(EntriesAt(d.domainModel, "domains"), num);
  }

  lemma ClashIsNotFree(a: Docs, b: Docs, fs: seq<Field>, i: nat, j: nat, version: Json, other: Json, num: Numbers,
                       less: Collation)
    requires DocsEquiv(a, a) && DocsEquiv(a, b) && Equiv(version, other) && OrderBlind(num) && StrictTotal(less)
    requires Gather(a, num).Returns? && i < j < |fs| && Exchangeable(fs[i], fs[j])
    requires Get(a.domainModel, "domains") == Obj(fs) && Get(b.domainModel, "domains") == Obj(Exchanged(fs, i, j))
    ensures TextsDiffer(BuildIR(a, version, num, less), BuildIR(b, other, num, less))
  {
    SameTextIff(a, b, version, other, num, less);
    OnlyEntitiesMatter(a, b, num);
    ExchangeShows(a, b, fs, i, j, num);
  }

  /** The documents with two domains of the domain model exchanged. */
  function ExchangedDocs(d: Docs, i: nat, j: nat): Docs
    requires i < j < |DomainMap(d)|
  {
    d.(domainModel := WithDomains(d.domainModel, Exchanged(DomainMap(d), i, j)))
  }

  lemma ExchangedDocsAre(d: Docs, i: nat, j: nat)
    requires DocsEquiv(d, d) && HostOrderedDocs(d) && i < j < |DomainMap(d)|
    requires !IsIndex(DomainMap(d)[i].key) && !IsIndex(DomainMap(d)[j].key)
    ensures DocsEquiv(d, ExchangedDocs(d, i, j)) && HostOrderedDocs(ExchangedDocs(d, i, j))
    ensures Get(ExchangedDocs(d, i, j).domainModel, "domains") == Obj(Exchanged(DomainMap(d), i, j))
  {
    ModelExchanged(d.domainModel, DomainMap(d), i, j);
  }

  /** The representation, and with it the hash, is the same for every order in which the maps of the
      documents can be written exactly when no two entities of different domains, neither domain named by
      an array index, have the same dotted name. */
  lemma KeyOrderFreeIff(d: Docs, version: Json, num: Numbers, less: Collation)
    requires DocsEquiv(d, d) && HostOrderedDocs(d) && Solid(version) && OrderBlind(num) && StrictTotal(less)
    requires Gather(d, num).Returns?
    ensures KeyOrderFree(d, version, num, less) <==> NoMovableClash(d)
  {
    if NoMovableClash(d) {
      FreeWithoutClash(d, version, num, less);
    } else {
      var i, j :| 0 <= i < j < |DomainMap(d)| && Exchangeable(DomainMap(d)[i], DomainMap(d)[j]);
      NotFreeWithClash(d, i, j, version, num, less);
    }
  }

  lemma FreeWithoutClash(d: Docs, version: Json, num: Numbers, less: Collation)
    requires DocsEquiv(d, d) && HostOrderedDocs(d) && OrderBlind(num) && StrictTotal(less)
    requires Gather(d, num).Returns? && NoMovableClash(d)
    ensures KeyOrderFree(d, version, num, less)
  {
    forall b, other | DocsEquiv(d, b) && HostOrderedDocs(b) && Equiv(version, other)
      ensures SameText(BuildIR(d, version, num, less), BuildIR(b, other, num, less))
    {
      NoClashIsFree(d, b, version, other, num, less);
    }
  }

  lemma NotFreeWithClash(d: Docs, i: nat, j: nat, version: Json, num: Numbers, less: Collation)
    requires DocsEquiv(d, d) && HostOrderedDocs(d) && Solid(version) && OrderBlind(num) && StrictTotal(less)
    requires Gather(d, num).Returns? && i < j < |DomainMap(d)| && Exchangeable(DomainMap(d)[i], DomainMap(d)[j])
    ensures !KeyOrderFree(d, version, num, less)
  {
    var b := ExchangedDocs(d, i, j);
    ExchangedDocsAre(d, i, j);
    SelfVersion(version);
    ClashIsNotFree(d, b, DomainMap(d), i, j, version, version, num, less);
    assert DocsEquiv(d, b) && HostOrderedDocs(b) && Equiv(version, version);
  }

  // ---- an input whose hash depends on key order ----

  /** A domain with one entity. */
  function OneEntity(domain: string, name: string): Field {
    Field(domain, Obj([Field("entities", Obj([Field(name, Obj([]))]))]))
  }

  /** Documents with two domains, and otherwise empty. */
  function TwoDomains(x: Field, y: Field): Docs {
    Docs(Obj([Field("domains", Obj([]))]), Obj([Field("domains", Obj([x, y]))]), Undef, Undef, Undef, Undef, Undef)
  }

  lemma TwoPieces(visit: Visit, x: Field, y: Field)
    requires visit(x).Returns? && visit(y).Returns?
    ensures Collect(visit, [x, y]).Returns?
  {
    assert [x, y][1..] == [y] && [y][1..] == [];
    assert Collect(visit, [y]) == Join2(visit(y), Returns(NOTHING));
    JoinNothing(visit(y));
  }

  lemma OnlyEntities(d: Docs, num: Numbers)
    requires DomainEntries(d.manifest) == [] && EntriesAt(d.commands, "commands") == []
    requires EntriesAt(d.events, "events") == []
    requires CapabilityPieces(d.capabilities, num) == Returns(NOTHING) && SagaEntries(d.sagas) == []
    requires EntriesAt(d.machines, "state_machines") == []
    ensures Gather(d, num) == Collect(DomainEntities(num), EntriesAt(d.domainModel, "domains"))
  {
    var e := Collect(DomainEntities(num), EntriesAt(d.domainModel, "domains"));
    JoinNothing(Returns(NOTHING));
    JoinNothing(e);
  }

  lemma OneEntityReturns(domain: string, name: string, num: Numbers)
    ensures DomainEntities(num)(OneEntity(domain, name)).Returns?
  {
    var entry := Field(name, Obj([]));
    EntityReturns(domain, name, num);
    assert EntriesAt(OneEntity(domain, name).value, "entities") == [entry];
    assert [entry][1..] == [];
    assert Collect(Entities(domain, num), [entry]) == Join2(EntityPiece(domain, entry, num), Returns(NOTHING));
  }

  lemma TwoDomainsGather(a: string, n: string, b: string, m: string, num: Numbers)
    ensures Gather(TwoDomains(OneEntity(a, n), OneEntity(b, m)), num).Returns?
  {
    var d := TwoDomains(OneEntity(a, n), OneEntity(b, m));
    OneEntityReturns(a, n, num);
    OneEntityReturns(b, m, num);
    TwoPieces(DomainEntities(num), OneEntity(a, n), OneEntity(b, m));
    assert EntriesAt(d.domainModel, "domains") == [OneEntity(a, n), OneEntity(b, m)];
    assert UnsortedDomains(d.manifest) == [];
    assert Nameless([]) == [] && SagaEntries(Undef) == [];
    OnlyEntities(d, num);
  }

  lemma OneEntityIsParsed(domain: string, name: string)
    requires name != PROTO
    ensures Parsed(OneEntity(domain, name).value)
  {
    assert "entities"[0] == 'e' && PROTO[0] == '_';
    assert Parsed(Obj([]));
    assert Parsed(Obj([Field(name, Obj([]))]));
  }

  lemma TwoDomainsEquiv(x: Field, y: Field)
    requires x.key != y.key && x.key != PROTO && y.key != PROTO && Parsed(x.value) && Parsed(y.value)
    ensures DocsEquiv(TwoDomains(x, y), TwoDomains(y, x))
  {
    assert "domains"[0] == 'd' && PROTO[0] == '_';
    var v, w := Obj([x, y]), Obj([y, x]);
    assert Parsed(v) && Parsed(w);
    assert [x, y][1..] == [y] && [y, x][1..] == [x];
    assert FieldMeanings([]) == map[];
    assert FieldMeanings([x]) == map[x.key := Meaning(x.value)] && FieldMeanings([y]) == map[y.key := Meaning(y.value)];
    assert FieldMeanings([x, y]) == FieldMeanings([y, x]);
    WrapEquiv("domains", v, w);
    WrapEquiv("domains", Obj([]), Obj([]));
  }

  lemma WrapEquiv(k: string, v: Json, w: Json)
    requires k != PROTO && Parsed(v) && Parsed(w) && Meaning(v) == Meaning(w)
    ensures ParsedEquiv(Obj([Field(k, v)]), Obj([Field(k, w)]))
  {
    assert [Field(k, v)][1..] == [] && [Field(k, w)][1..] == [];
  }

  lemma TwoDomainsHost(a: string, n: string, b: string, m: string)
    requires !IsIndex(a) && !IsIndex(b)
    ensures HostOrderedDocs(TwoDomains(OneEntity(a, n), OneEntity(b, m)))
  {
    assert HostOrdered(Obj([]));
    assert HostOrdered(Obj([Field(n, Obj([]))])) && HostOrdered(Obj([Field(m, Obj([]))]));
    assert HostOrdered(OneEntity(a, n).value) && HostOrdered(OneEntity(b, m).value);
    assert HostOrdered(Obj([OneEntity(a, n), OneEntity(b, m)]));
  }

  lemma DottedShare(a: string, n: string, b: string, m: string)
    requires a + ("." + n) == b + ("." + m)
    ensures ShareName(OneEntity(a, n), OneEntity(b, m))
  {
    var f, g := OneEntity(a, n), OneEntity(b, m);
    assert EntriesAt(f.value, "entities") == [Field(n, Obj([]))];
    assert EntriesAt(g.value, "entities") == [Field(m, Obj([]))];
    assert EntriesAt(f.value, "entities")[0].key == n && EntriesAt(g.value, "entities")[0].key == m;
  }

  lemma TwoDomainsWritten()
    ensures var x, y := OneEntity("a", "b.c"), OneEntity("a.b", "c");
      && DocsEquiv(TwoDomains(x, y), TwoDomains(y, x))
      && HostOrderedDocs(TwoDomains(x, y)) && HostOrderedDocs(TwoDomains(y, x))
  {
    assert "a"[0] == 'a' && "b.c"[0] == 'b' && "c"[0] == 'c' && PROTO[0] == '_' && |"a"| != |"a.b"|;
    assert !IsIndex("a") && !IsIndex("a.b") by { assert "a.b"[0] == 'a'; }
    OneEntityIsParsed("a", "b.c");
    OneEntityIsParsed("a.b", "c");
    TwoDomainsEquiv(OneEntity("a", "b.c"), OneEntity("a.b", "c"));
    TwoDomainsHost("a", "b.c", "a.b", "c");
    TwoDomainsHost("a.b", "c", "a", "b.c");
  }

  lemma TwoDomainsExchangeable()
    ensures Exchangeable(OneEntity("a", "b.c"), OneEntity("a.b", "c"))
  {
    assert !IsIndex("a") && !IsIndex("a.b") by { assert "a"[0] == 'a' && "a.b"[0] == 'a'; }
    SameDottedName();
    DottedShare("a", "b.c", "a.b", "c");
  }

  /** Two domains, a and a.b, whose entities b.c and c have the same dotted name. The two orders in which
      the domains can be written give representations with different texts, and so different hashes
      unless these two collide. */
  lemma ClashShowsKeyOrder(version: Json, num: Numbers, less: Collation)
    requires OrderBlind(num) && StrictTotal(less) && Solid(version)
    ensures var x, y := OneEntity("a", "b.c"), OneEntity("a.b", "c");
      && DocsEquiv(TwoDomains(x, y), TwoDomains(y, x))
      && HostOrderedDocs(TwoDomains(x, y)) && HostOrderedDocs(TwoDomains(y, x))
    ensures var x := BuildIR(TwoDomains(OneEntity("a", "b.c"), OneEntity("a.b", "c")), version, num, less);
            var y := BuildIR(TwoDomains(OneEntity("a.b", "c"), OneEntity("a", "b.c")), version, num, less);
            TextsDiffer(x, y)
  {
    TwoDomainsWritten();
    TwoDomainsExchangeable();
    TwoDomainsGather("a", "b.c", "a.b", "c", num);
    TwoDomainsShow(OneEntity("a", "b.c"), OneEntity("a.b", "c"), version, num, less);
  }

  lemma TwoDomainsShow(x: Field, y: Field, version: Json, num: Numbers, less: Collation)
    requires OrderBlind(num) && StrictTotal(less) && Solid(version) && Exchangeable(x, y)
    requires DocsEquiv(TwoDomains(x, y), TwoDomains(y, x)) && Gather(TwoDomains(x, y), num).Returns?
    ensures TextsDiffer(BuildIR(TwoDomains(x, y), version, num, less), BuildIR(TwoDomains(y, x), version, num, less))
  {
    SelfEquiv(TwoDomains(x, y), TwoDomains(y, x));
    DomainsOfTwo(x, y);
    DomainsOfTwo(y, x);
    ExchangedPair(x, y);
    SelfVersion(version);
    ClashIsNotFree(TwoDomains(x, y), TwoDomains(y, x), [x, y], 0, 1, version, version, num, less);
  }

  lemma SelfEquiv(a: Docs, b: Docs)
    requires DocsEquiv(a, b)
    ensures DocsEquiv(a, a)
  {
  }

  lemma SelfVersion(version: Json)
    requires Solid(version)
    ensures Equiv(version, version)
  {
  }

  lemma SameDottedName()
    ensures "a" + ("." + "b.c") == "a.b" + ("." + "c")
  {
  }

  lemma ExchangedPair(x: Field, y: Field)
    ensures Exchanged([x, y], 0, 1) == [y, x]
  {
  }

  lemma DomainsOfTwo(x: Field, y: Field)
    ensures Get(TwoDomains(x, y).domainModel, "domains") == Obj([x, y]) && DomainMap(TwoDomains(x, y)) == [x, y]
  {
  }
}
