// The order of the nodes of the intermediate representation. Their sort is stable, so the hashed text is decided
// by the order in which the nodes of each identifier are made. Lists keep their order and other maps hold no
// two nodes of one identifier, so that only the entities of the domain model can come in different orders.

module NodeOrder {
  import opened Text
  import opened Sorting
  import opened JsonValue
  import opened JsonCanonical
  import opened Js
  import opened IrRecipes
  import opened IrNodes
  import opened IrBuilder
  import opened IrOrder
  import opened IrIds

  // ---- the views of one identifier ----

  /** The views with this identifier, in order. */
  function Only(xs: seq<View>, id: string): seq<View> {
    if xs == [] then [] else (if xs[0].id == id then [xs[0]] else []) + Only(xs[1..], id)
  }

  lemma OnlyFirst(v: View, vs: seq<View>, id: string)
    ensures Only([v] + vs, id) == if v.id == id then [v] + Only(vs, id) else Only(vs, id)
  {
    assert ([v] + vs)[1..] == vs;
    assert [] + Only(vs, id) == Only(vs, id);
  }

  lemma Associates(x: seq<View>, y: seq<View>, z: seq<View>)
    ensures x + (y + z) == (x + y) + z
  {
  }

  lemma {:induction false} OnlyAppend(a: seq<View>, b: seq<View>, id: string)
    ensures Only(a + b, id) == Only(a, id) + Only(b, id)
  {
    if a == [] {
      assert a + b == b;
    } else {
      var first, t := if a[0].id == id then [a[0]] else [], a[1..];
      assert (a + b)[1..] == t + b;
      assert Only(a + b, id) == first + Only(t + b, id);
      OnlyAppend(t, b, id);
      Associates(first, Only(t, id), Only(b, id));
    }
  }

  lemma ViewsFirst(n: Node, ns: seq<Node>)
    ensures Views([n] + ns) == [ViewOf(n)] + Views(ns)
  {
  }

  lemma {:induction false} OnlyInsert(n: Node, s: seq<Node>, less: Collation, id: string)
    requires StrictTotal(less)
    ensures Only(Views(Insert(n, s, ById(less))), id) == Only([ViewOf(n)] + Views(s), id)
  {
    if s == [] || !ById(less)(s[0], n) {
      ViewsFirst(n, s);
    } else {
      var rest := Insert(n, s[1..], ById(less));
      assert s == [s[0]] + s[1..];
      OnlyInsert(n, s[1..], less, id);
      ViewsFirst(s[0], rest);
      ViewsFirst(s[0], s[1..]);
      OnlyFirst(ViewOf(s[0]), Views(rest), id);
      OnlyFirst(ViewOf(n), Views(s[1..]), id);
      OnlyFirst(ViewOf(n), Views(s), id);
      OnlyFirst(ViewOf(s[0]), Views(s[1..]), id);
      assert !less(n.id, n.id);
    }
  }

  /** Sorting by identifier leaves the nodes of one identifier in their order. */
  lemma {:induction false} OnlySort(ns: seq<Node>, less: Collation, id: string)
    requires StrictTotal(less)
    ensures Only(Views(Sort(ns, ById(less))), id) == Only(Views(ns), id)
  {
    if ns != [] {
      var rest := Sort(ns[1..], ById(less));
      assert ns == [ns[0]] + ns[1..];
      OnlySort(ns[1..], less, id);
      OnlyInsert(ns[0], rest, less, id);
      ViewsFirst(ns[0], ns[1..]);
      OnlyFirst(ViewOf(ns[0]), Views(rest), id);
      OnlyFirst(ViewOf(ns[0]), Views(ns[1..]), id);
    }
  }

  ghost predicate SameOnly(a: seq<View>, b: seq<View>) {
    forall id :: Only(a, id) == Only(b, id)
  }

  lemma {:induction false} OnlyFinds(xs: seq<View>, id: string)
    ensures Only(xs, id) != [] ==> exists i :: 0 <= i < |xs| && xs[i].id == id
    ensures forall i :: 0 <= i < |xs| && xs[i].id == id ==> Only(xs, id) != []
  {
    if xs != [] {
      OnlyFinds(xs[1..], id);
      assert forall i :: 0 < i < |xs| ==> xs[i] == xs[1..][i - 1];
      if Only(xs[1..], id) != [] {
        var i :| 0 <= i < |xs[1..]| && xs[1..][i].id == id;
        assert xs[i + 1].id == id;
      }
    }
  }

  lemma NotBelowHead(x: seq<View>, y: seq<View>, less: Collation)
    requires x != [] && y != [] && Sorted(y, ViewLess(less)) && SameOnly(x, y) && StrictTotal(less)
    ensures !less(x[0].id, y[0].id)
  {
    OnlyFinds(x, x[0].id);
    assert Only(x, x[0].id) == Only(y, x[0].id);
    OnlyFinds(y, x[0].id);
    var i :| 0 <= i < |y| && y[i].id == x[0].id;
    assert !less(y[0].id, y[0].id);
    if i > 0 { assert !ViewLess(less)(y[i], y[0]); }
  }

  lemma TailsAgree(x: seq<View>, y: seq<View>)
    requires x != [] && y != [] && SameOnly(x, y) && x[0].id == y[0].id
    ensures x[0] == y[0] && SameOnly(x[1..], y[1..])
  {
    var h := x[0].id;
    assert Only(x, h) == [x[0]] + Only(x[1..], h) && Only(y, h) == [y[0]] + Only(y[1..], h);
    assert Only(x, h) == Only(y, h);
    assert x[0] == Only(x, h)[0] == Only(y, h)[0] == y[0];
    forall id ensures Only(x[1..], id) == Only(y[1..], id) {
      assert Only(x, id) == Only(y, id);
      if id == h {
        assert Only(x[1..], h) == Only(x, h)[1..] && Only(y[1..], h) == Only(y, h)[1..];
      } else {
        assert Only(x, id) == [] + Only(x[1..], id) == Only(x[1..], id);
        assert Only(y, id) == [] + Only(y[1..], id) == Only(y[1..], id);
      }
    }
  }

  lemma NotEmpty(x: seq<View>, y: seq<View>)
    requires SameOnly(x, y) && y != []
    ensures x != []
  {
    var id := y[0].id;
    OnlyFinds(y, id);
    OnlyFinds(x, id);
    assert Only(x, id) == Only(y, id);
  }

  /** Sorted lists that agree on every identifier are the same list. */
  lemma {:induction false} SortedFromOnly(x: seq<View>, y: seq<View>, less: Collation)
    requires StrictTotal(less) && Sorted(x, ViewLess(less)) && Sorted(y, ViewLess(less)) && SameOnly(x, y)
    ensures x == y
  {
    if y != [] { NotEmpty(x, y); }
    if x != [] {
      NotEmpty(y, x);
      NotBelowHead(x, y, less);
      NotBelowHead(y, x, less);
      TailsAgree(x, y);
      SortedFromOnly(x[1..], y[1..], less);
      assert x == [x[0]] + x[1..] && y == [y[0]] + y[1..];
    }
  }

  /** Two lists of nodes are sorted to the same views exactly when they agree on every identifier. */
  lemma SortedViewsIff(a: seq<Node>, b: seq<Node>, less: Collation)
    requires StrictTotal(less)
    ensures Views(Sort(a, ById(less))) == Views(Sort(b, ById(less))) <==> SameOnly(Views(a), Views(b))
  {
    var x, y := Views(Sort(a, ById(less))), Views(Sort(b, ById(less)));
    forall id ensures Only(x, id) == Only(Views(a), id) && Only(y, id) == Only(Views(b), id) {
      OnlySort(a, less, id);
      OnlySort(b, less, id);
    }
    if SameOnly(Views(a), Views(b)) {
      forall id ensures Only(x, id) == Only(y, id) { assert Only(Views(a), id) == Only(Views(b), id); }
      ViewsSorted(a, less);
      ViewsSorted(b, less);
      SortedFromOnly(x, y, less);
    }
    if x == y {
      forall id ensures Only(Views(a), id) == Only(Views(b), id) { assert Only(x, id) == Only(y, id); }
    }
  }

  // ---- texts and views ----

  lemma NodeIdIs(n: Node)
    ensures Get(NodeJson(n), "id") == Str(n.id)
  {
    GetPut(Put(Literal(n.body), "type", Str(n.kind)), "id", Str(n.id), "id");
  }

  lemma EquivNodesSameView(m: Node, n: Node)
    requires Equiv(NodeJson(m), NodeJson(n))
    ensures ViewOf(m) == ViewOf(n)
  {
    assert "id"[0] == 'i' && PROTO[0] == '_';
    GetEquiv(NodeJson(m), NodeJson(n), "id");
    NodeIdIs(m);
    NodeIdIs(n);
  }

  lemma EquivNodesSameViews(a: seq<Node>, b: seq<Node>)
    requires AllEquiv(NodesJson(a), NodesJson(b))
    ensures Views(a) == Views(b)
  {
    assert |a| == |NodesJson(a)| && |b| == |NodesJson(b)|;
    forall i | 0 <= i < |a| ensures ViewOf(a[i]) == ViewOf(b[i]) {
      assert Equiv(NodesJson(a)[i], NodesJson(b)[i]);
      EquivNodesSameView(a[i], b[i]);
    }
  }

  lemma TextIffViews(x: Ir, y: Ir)
    requires AllSolid(x.nodes) && AllSolid(y.nodes) && x.edges == y.edges && Equiv(x.protocolVersion, y.protocolVersion)
    ensures IrText(x) == IrText(y) <==> Views(x.nodes) == Views(y.nodes)
  {
    if IrText(x) == IrText(y) {
      IrHashBinds(x, y, s => s);
      EquivNodesSameViews(x.nodes, y.nodes);
    }
    if Views(x.nodes) == Views(y.nodes) {
      SameViewsEquiv(x.nodes, y.nodes);
      SameIrSameText(x, y);
    }
  }

  /** From documents that are the same up to key order the same text is hashed exactly when the nodes of
      each identifier are made in the same order. */
  lemma SameTextIff(a: Docs, b: Docs, version: Json, other: Json, num: Numbers, less: Collation)
    requires DocsEquiv(a, b) && Equiv(version, other) && OrderBlind(num) && StrictTotal(less) && Gather(a, num).Returns?
    ensures Gather(b, num).Returns?
    ensures IrText(BuildIR(a, version, num, less).value) == IrText(BuildIR(b, other, num, less).value)
       <==> SameOnly(Views(Gather(a, num).value.nodes), Views(Gather(b, num).value.nodes))
  {
    GatherAlike(a, b, num);
    var p, q := Gather(a, num).value, Gather(b, num).value;
    SortedEdgesAgree(p.edges, q.edges, less);
    SortPermutes(p.nodes, ById(less));
    SortPermutes(q.nodes, ById(less));
    SolidPermutation(p.nodes, Sort(p.nodes, ById(less)));
    SolidPermutation(q.nodes, Sort(q.nodes, ById(less)));
    TextIffViews(BuildIR(a, version, num, less).value, BuildIR(b, other, num, less).value);
    SortedViewsIff(p.nodes, q.nodes, less);
  }

  // ---- loops that make the nodes of each identifier in one order ----

  lemma {:induction false} OnlyCount(xs: seq<View>, id: string, v: View)
    ensures multiset(Only(xs, id))[v] == if v.id == id then multiset(xs)[v] else 0
  {
    if xs != [] {
      OnlyCount(xs[1..], id, v);
      assert xs == [xs[0]] + xs[1..];
      assert multiset(xs) == multiset{xs[0]} + multiset(xs[1..]);
    }
  }

  lemma {:induction false} OnlyOne(ns: seq<Node>, id: string)
    requires UniqueIds(ns)
    ensures |Only(Views(ns), id)| <= 1
  {
    if ns != [] {
      assert Views(ns)[1..] == Views(ns[1..]);
      assert forall i :: 0 <= i < |ns[1..]| ==> ns[1..][i] == ns[i + 1];
      OnlyOne(ns[1..], id);
      OnlyFinds(Views(ns[1..]), id);
      if ns[0].id == id {
        forall i | 0 <= i < |ns[1..]| ensures Views(ns[1..])[i].id != id { assert ns[i + 1].id != ns[0].id; }
      }
    }
  }

  lemma SmallIsSame(a: seq<View>, b: seq<View>)
    requires multiset(a) == multiset(b) && |a| <= 1
    ensures a == b
  {
    assert |multiset(a)| == |multiset(b)|;
    if |a| == 1 { assert a[0] in multiset(b); }
  }

  /** Alike pieces whose identifiers are unique. */
  lemma UniqueAgree(p: Outcome<Piece>, q: Outcome<Piece>)
    requires Alike(p, q) && p.Returns? && UniqueIds(p.value.nodes)
    ensures SameOnly(Views(p.value.nodes), Views(q.value.nodes))
  {
    var a, b := Views(p.value.nodes), Views(q.value.nodes);
    forall id ensures Only(a, id) == Only(b, id) {
      forall v ensures multiset(Only(a, id))[v] == multiset(Only(b, id))[v] {
        OnlyCount(a, id, v);
        OnlyCount(b, id, v);
      }
      OnlyOne(p.value.nodes, id);
      SmallIsSame(Only(a, id), Only(b, id));
    }
  }

  ghost predicate MakesOne(visit: Visit) {
    forall f :: visit(f).Returns? ==> |visit(f).value.nodes| <= 1
  }

  /** Entries that match one by one are visited to the same views, when each makes one node at most. */
  lemma {:induction false} MatchingSameViews(f: Visit, g: Visit, a: seq<Field>, b: seq<Field>)
    requires Respect(f, g) && EntriesMatch(a, b) && MakesOne(f)
    requires Collect(f, a).Returns? && Collect(g, b).Returns?
    ensures Views(Collect(f, a).value.nodes) == Views(Collect(g, b).value.nodes)
  {
    if a != [] {
      assert a[0] == Field(a[0].key, a[0].value) && b[0] == Field(b[0].key, b[0].value);
      assert Alike(f(Field(a[0].key, a[0].value)), g(Field(a[0].key, b[0].value)));
      MatchingSameViews(f, g, a[1..], b[1..]);
      SmallIsSame(Views(f(a[0]).value.nodes), Views(g(b[0]).value.nodes));
      ViewsAppend(f(a[0]).value.nodes, Collect(f, a[1..]).value.nodes);
      ViewsAppend(g(b[0]).value.nodes, Collect(g, b[1..]).value.nodes);
    }
  }

  lemma NamelessMatch(a: seq<Json>, b: seq<Json>)
    requires |a| == |b| && forall i :: 0 <= i < |a| ==> ParsedEquiv(a[i], b[i])
    ensures EntriesMatch(Nameless(a), Nameless(b))
  {
    assert PROTO != "" by { assert PROTO[0] == '_'; }
  }

  lemma CapabilitiesMakeOne(num: Numbers)
    ensures MakesOne(Capabilities(num))
  {
    forall f | Capabilities(num)(f).Returns? ensures |Capabilities(num)(f).value.nodes| <= 1 {
      assert |CapabilityPiece(f, num).value.nodes| == 1;
    }
  }

  lemma SagaMakesOne(f: Field, recipe: seq<Binding>, num: Numbers)
    ensures SagaWith(f, recipe, num).Returns? ==> |SagaWith(f, recipe, num).value.nodes| <= 1
  {
  }

  lemma SagasMakeOne(num: Numbers)
    ensures MakesOne(Sagas(num))
  {
    forall f | Sagas(num)(f).Returns? ensures |Sagas(num)(f).value.nodes| <= 1 { SagaMakesOne(f, SAGA_NODE, num); }
  }

  lemma ItemViews(f: Visit, v: Json, w: Json)
    requires Respect(f, f) && MakesOne(f) && ParsedEquiv(v, w) && Iterate(v).Returns? && Iterate(w).Returns?
    requires Collect(f, Nameless(Iterate(v).value)).Returns? && Collect(f, Nameless(Iterate(w).value)).Returns?
    ensures Views(Collect(f, Nameless(Iterate(v).value)).value.nodes)
         == Views(Collect(f, Nameless(Iterate(w).value)).value.nodes)
  {
    if v.Arr? { ParsedItems(v.items, w.items); }
    NamelessMatch(Iterate(v).value, Iterate(w).value);
    MatchingSameViews(f, f, Nameless(Iterate(v).value), Nameless(Iterate(w).value));
  }

  lemma CapabilityViews(c: Json, d: Json, num: Numbers)
    requires DocEquiv(c, d) && OrderBlind(num) && CapabilityPieces(c, num).Returns? && CapabilityPieces(d, num).Returns?
    ensures Views(CapabilityPieces(c, num).value.nodes) == Views(CapabilityPieces(d, num).value.nodes)
  {
    CapabilitiesRespect(num);
    CapabilitiesMakeOne(num);
    assert PROTO[0] == '_';
    GetDoc(c, d, "capabilities");
    DocEquivIsEquiv(Get(c, "capabilities"), Get(d, "capabilities"));
    if !Falsy(Get(c, "capabilities")) { ItemViews(Capabilities(num), Get(c, "capabilities"), Get(d, "capabilities")); }
  }

  lemma ConcatMatch(v: seq<Json>, x: seq<Json>, w: seq<Json>, y: seq<Json>)
    requires |v| == |w| && |x| == |y| && (forall i :: 0 <= i < |v| ==> ParsedEquiv(v[i], w[i]))
    requires forall i :: 0 <= i < |x| ==> ParsedEquiv(x[i], y[i])
    ensures |v + x| == |w + y| && forall i :: 0 <= i < |v + x| ==> ParsedEquiv((v + x)[i], (w + y)[i])
  {
    forall i | 0 <= i < |v + x| ensures ParsedEquiv((v + x)[i], (w + y)[i]) {
      if i < |v| { assert ParsedEquiv(v[i], w[i]); } else { assert ParsedEquiv(x[i - |v|], y[i - |v|]); }
    }
  }

  lemma TwoListsViews(f: Visit, v: Json, w: Json, x: Json, y: Json)
    requires Respect(f, f) && MakesOne(f) && DocEquiv(v, w) && DocEquiv(x, y)
    requires Collect(f, Nameless(ListOrNone(v) + ListOrNone(x))).Returns?
    requires Collect(f, Nameless(ListOrNone(w) + ListOrNone(y))).Returns?
    ensures Views(Collect(f, Nameless(ListOrNone(v) + ListOrNone(x))).value.nodes)
         == Views(Collect(f, Nameless(ListOrNone(w) + ListOrNone(y))).value.nodes)
  {
    ListOrNoneMatch(v, w);
    ListOrNoneMatch(x, y);
    var a, b := ListOrNone(v) + ListOrNone(x), ListOrNone(w) + ListOrNone(y);
    ConcatMatch(ListOrNone(v), ListOrNone(x), ListOrNone(w), ListOrNone(y));
    NamelessMatch(a, b);
    MatchingSameViews(f, f, Nameless(a), Nameless(b));
  }

  lemma SagaViews(c: Json, d: Json, num: Numbers)
    requires DocEquiv(c, d) && OrderBlind(num)
    requires Collect(Sagas(num), SagaEntries(c)).Returns? && Collect(Sagas(num), SagaEntries(d)).Returns?
    ensures Views(Collect(Sagas(num), SagaEntries(c)).value.nodes)
         == Views(Collect(Sagas(num), SagaEntries(d)).value.nodes)
  {
    SagasRespect(num);
    SagasMakeOne(num);
    assert PROTO[0] == '_';
    GetDoc(c, d, "sagas");
    GetDoc(c, d, "saga_templates");
    TwoListsViews(Sagas(num), Get(c, "sagas"), Get(d, "sagas"), Get(c, "saga_templates"), Get(d, "saga_templates"));
  }

  /** Identifiers made from distinct names. */
  lemma DistinctNamesUnique(p: Outcome<Piece>, prefix: string, names: seq<string>)
    requires Makes(p, prefix, names) && Distinct(names)
    ensures p.Returns? ==> UniqueIds(p.value.nodes)
  {
    if p.Returns? {
      PrefixedDistinct(prefix, names);
      UniqueIsDistinct(p.value.nodes);
    }
  }

  lemma KeyedUnique(d: Docs, num: Numbers)
    requires DocsEquiv(d, d)
    ensures var p := Collect(Domains(d.manifest, num), DomainEntries(d.manifest));
            p.Returns? ==> UniqueIds(p.value.nodes)
    ensures var p := Collect(Commands(num), Sort(EntriesAt(d.commands, "commands"), ByKey()));
            p.Returns? ==> UniqueIds(p.value.nodes)
    ensures var p := Collect(Events(d.events, num), Sort(EntriesAt(d.events, "events"), ByKey()));
            p.Returns? ==> UniqueIds(p.value.nodes)
    ensures var p := Collect(Machines(num), EntriesAt(d.machines, "state_machines"));
            p.Returns? ==> UniqueIds(p.value.nodes)
  {
    var domains := DomainEntries(d.manifest);
    var commands := Sort(EntriesAt(d.commands, "commands"), ByKey());
    var events := Sort(EntriesAt(d.events, "events"), ByKey());
    var machines := EntriesAt(d.machines, "state_machines");
    KeyedAreDistinct(d);
    DomainsMake(d.manifest, num, domains);
    CommandsMake(num, commands);
    EventsMake(d.events, num, events);
    MachinesMake(num, machines);
    DistinctNamesUnique(Collect(Domains(d.manifest, num), domains), "domain:", AllNames(KeyName(), domains));
    DistinctNamesUnique(Collect(Commands(num), commands), "command:", AllNames(KeyName(), commands));
    DistinctNamesUnique(Collect(Events(d.events, num), events), "event:", AllNames(KeyName(), events));
    DistinctNamesUnique(Collect(Machines(num), machines), "state_machine:", AllNames(KeyName(), machines));
  }

  // ---- only the entities can differ ----

  lemma SameOnlyAppend(a: seq<View>, b: seq<View>, x: seq<View>, y: seq<View>)
    requires SameOnly(a, b)
    ensures SameOnly(a + x, b + y) <==> SameOnly(x, y)
    ensures SameOnly(x + a, y + b) <==> SameOnly(x, y)
  {
    forall id
      ensures Only(a + x, id) == Only(b + y, id) <==> Only(x, id) == Only(y, id)
      ensures Only(x + a, id) == Only(y + b, id) <==> Only(x, id) == Only(y, id)
    {
      OnlyAppend(a, x, id);
      OnlyAppend(b, y, id);
      OnlyAppend(x, a, id);
      OnlyAppend(y, b, id);
      Cancel(Only(a, id), Only(x, id), Only(y, id));
    }
  }

  lemma Cancel(c: seq<View>, x: seq<View>, y: seq<View>)
    ensures c + x == c + y <==> x == y
    ensures x + c == y + c <==> x == y
  {
    if c + x == c + y { assert x == (c + x)[|c|..] && y == (c + y)[|c|..]; }
    if x + c == y + c {
      assert |x + c| == |x| + |c| && |y + c| == |y| + |c|;
      assert x == (x + c)[..|x|] && y == (y + c)[..|y|];
    }
  }

  lemma SameOnlyJoin(a: seq<View>, b: seq<View>, x: seq<View>, y: seq<View>)
    requires SameOnly(a, b) && SameOnly(x, y)
    ensures SameOnly(a + x, b + y)
  {
    SameOnlyAppend(a, b, x, y);
  }

  function EntityPart(d: Docs, num: Numbers): Outcome<Piece> {
    Collect(DomainEntities(num), EntriesAt(d.domainModel, "domains"))
  }

  ghost predicate AgreeOn(p: Outcome<Piece>, q: Outcome<Piece>) {
    p.Returns? && q.Returns? ==> SameOnly(Views(p.value.nodes), Views(q.value.nodes))
  }

  lemma AgreeJoin(p: Outcome<Piece>, q: Outcome<Piece>, r: Outcome<Piece>, s: Outcome<Piece>)
    requires AgreeOn(p, q) && AgreeOn(r, s)
    ensures AgreeOn(Join2(p, r), Join2(q, s))
  {
    if Join2(p, r).Returns? && Join2(q, s).Returns? {
      ViewsAppend(p.value.nodes, r.value.nodes);
      ViewsAppend(q.value.nodes, s.value.nodes);
      SameOnlyJoin(Views(p.value.nodes), Views(q.value.nodes), Views(r.value.nodes), Views(s.value.nodes));
    }
  }

  lemma AgreeAround(p: Outcome<Piece>, q: Outcome<Piece>, e: Outcome<Piece>, f: Outcome<Piece>, r: Outcome<Piece>,
                    s: Outcome<Piece>)
    requires AgreeOn(p, q) && AgreeOn(r, s)
    requires Join2(p, Join2(e, r)).Returns? && Join2(q, Join2(f, s)).Returns?
    ensures SameOnly(Views(Join2(p, Join2(e, r)).value.nodes), Views(Join2(q, Join2(f, s)).value.nodes))
       <==> SameOnly(Views(e.value.nodes), Views(f.value.nodes))
  {
    var pv, qv := Views(p.value.nodes), Views(q.value.nodes);
    var ev, fv := Views(e.value.nodes), Views(f.value.nodes);
    var rv, sv := Views(r.value.nodes), Views(s.value.nodes);
    ViewsAppend(e.value.nodes, r.value.nodes);
    ViewsAppend(f.value.nodes, s.value.nodes);
    ViewsAppend(p.value.nodes, e.value.nodes + r.value.nodes);
    ViewsAppend(q.value.nodes, f.value.nodes + s.value.nodes);
    SameOnlyAppend(pv, qv, ev + rv, fv + sv);
    SameOnlyAppend(rv, sv, ev, fv);
  }

  /** The loops after the one over the domain model. */
  function Rest(d: Docs, num: Numbers): Outcome<Piece> {
    Join2(Collect(Commands(num), Sort(EntriesAt(d.commands, "commands"), ByKey())),
    Join2(Collect(Events(d.events, num), Sort(EntriesAt(d.events, "events"), ByKey())),
    Join2(CapabilityPieces(d.capabilities, num),
    Join2(Collect(Sagas(num), SagaEntries(d.sagas)),
          Collect(Machines(num), EntriesAt(d.machines, "state_machines"))))))
  }

  lemma UniqueAgreeOn(p: Outcome<Piece>, q: Outcome<Piece>)
    requires Alike(p, q) && (p.Returns? ==> UniqueIds(p.value.nodes))
    ensures AgreeOn(p, q)
  {
    if p.Returns? { UniqueAgree(p, q); }
  }

  lemma RestAgrees(a: Docs, b: Docs, num: Numbers)
    requires DocsEquiv(a, a) && DocsEquiv(a, b) && OrderBlind(num)
    ensures AgreeOn(Rest(a, num), Rest(b, num))
  {
    MapLoopsAlike(a, b, num);
    KeyedUnique(a, num);
    var a3 := Collect(Commands(num), Sort(EntriesAt(a.commands, "commands"), ByKey()));
    var b3 := Collect(Commands(num), Sort(EntriesAt(b.commands, "commands"), ByKey()));
    var a4 := Collect(Events(a.events, num), Sort(EntriesAt(a.events, "events"), ByKey()));
    var b4 := Collect(Events(b.events, num), Sort(EntriesAt(b.events, "events"), ByKey()));
    var a5, b5 := CapabilityPieces(a.capabilities, num), CapabilityPieces(b.capabilities, num);
    var a6, b6 := Collect(Sagas(num), SagaEntries(a.sagas)), Collect(Sagas(num), SagaEntries(b.sagas));
    var a7 := Collect(Machines(num), EntriesAt(a.machines, "state_machines"));
    var b7 := Collect(Machines(num), EntriesAt(b.machines, "state_machines"));
    UniqueAgreeOn(a3, b3);
    UniqueAgreeOn(a4, b4);
    UniqueAgreeOn(a7, b7);
    if a5.Returns? && b5.Returns? { CapabilityViews(a.capabilities, b.capabilities, num); }
    if a6.Returns? && b6.Returns? { SagaViews(a.sagas, b.sagas, num); }
    FiveAgree(a3, a4, a5, a6, a7, b3, b4, b5, b6, b7);
  }

  lemma FiveAgree(a3: Outcome<Piece>, a4: Outcome<Piece>, a5: Outcome<Piece>, a6: Outcome<Piece>, a7: Outcome<Piece>,
                  b3: Outcome<Piece>, b4: Outcome<Piece>, b5: Outcome<Piece>, b6: Outcome<Piece>, b7: Outcome<Piece>)
    requires AgreeOn(a3, b3) && AgreeOn(a4, b4) && AgreeOn(a5, b5) && AgreeOn(a6, b6) && AgreeOn(a7, b7)
    ensures AgreeOn(Join2(a3, Join2(a4, Join2(a5, Join2(a6, a7)))), Join2(b3, Join2(b4, Join2(b5, Join2(b6, b7)))))
  {
    AgreeJoin(a6, b6, a7, b7);
    AgreeJoin(a5, b5, Join2(a6, a7), Join2(b6, b7));
    AgreeJoin(a4, b4, Join2(a5, Join2(a6, a7)), Join2(b5, Join2(b6, b7)));
    AgreeJoin(a3, b3, Join2(a4, Join2(a5, Join2(a6, a7))), Join2(b4, Join2(b5, Join2(b6, b7))));
  }

  /** Of all nodes, only those of entities can be made in an order that depends on the order of keys. */
  lemma OnlyEntitiesMatter(a: Docs, b: Docs, num: Numbers)
    requires DocsEquiv(a, a) && DocsEquiv(a, b) && OrderBlind(num) && Gather(a, num).Returns? && Gather(b, num).Returns?
    ensures EntityPart(a, num).Returns? && EntityPart(b, num).Returns?
    ensures SameOnly(Views(Gather(a, num).value.nodes), Views(Gather(b, num).value.nodes))
       <==> SameOnly(Views(EntityPart(a, num).value.nodes), Views(EntityPart(b, num).value.nodes))
  {
    var a1 := Collect(Domains(a.manifest, num), DomainEntries(a.manifest));
    var b1 := Collect(Domains(b.manifest, num), DomainEntries(b.manifest));
    DomainLoopAlike(a.manifest, b.manifest, num);
    KeyedUnique(a, num);
    UniqueAgreeOn(a1, b1);
    RestAgrees(a, b, num);
    AgreeAround(a1, b1, EntityPart(a, num), EntityPart(b, num), Rest(a, num), Rest(b, num));
  }
}
