// The object literals from which the compiler makes the nodes of its intermediate representation, as
// expressions over the definition at hand, and their evaluation.

module IrRecipes {
  import opened Text
  import opened JsonValue
  import opened Js

  /** A property name written in the code. */
  type Key = k: string | k != PROTO witness ""

  datatype Expr =
    | Lit(text: string)
    | Zero
    | NullValue
    | EmptyList
    | EmptyObject
    | Name                              // the key being visited
    | Owner                             // the key of the map around it
    | Self                              // the definition being visited
    | Doc                               // the document it stands in
    | At(of: Expr, key: Key)            // of?.key
    | AtName(of: Expr)                  // of?.[name]
    | Either(a: Expr, b: Expr)          // a || b
    | Default(a: Expr, b: Expr)         // a ?? b
    | Glue(a: Expr, b: Expr)            // `${a}${b}`
    | Ordinal                           // index + 1, as text
    | Spread(a: Expr, b: Expr)          // [...a, ...b]
    | ListOf(of: Expr)                  // of ? [of] : []
    | Lower(of: Expr)                   // of.toLowerCase()
    | Head(of: Expr)                    // typeof of === 'string' ? of.split('.')[0] : ''
    | NumberOr(of: Expr)                // Number(of ?? index + 1)
    | Number(of: Expr)                  // Number(of)
    | Seconds(of: Expr)                 // Math.max(0, Math.ceil(Number(of) / 1000))
    | MapItems(of: Expr, recipe: seq<Binding>)

  datatype Binding = Binding(key: Key, value: Expr)

  datatype Env = Env(name: string, owner: string, self: Json, doc: Json, index: nat)

  /** Number conversion and rounding of the host language. */
  datatype Numbers = Numbers(number: Json -> Json, seconds: Json -> Json)

  // ---- the operators ----

  function AtOf(p: Outcome<Json>, key: string): Outcome<Json> {
    var v :- p;
    Returns(Get(v, key))
  }

  function EntryOf(p: Outcome<Json>, name: string): Outcome<Json> {
    var v :- p;
    Returns(GetField(ObjectEntries(v), name))
  }

  function EitherOf(p: Outcome<Json>, q: Outcome<Json>): Outcome<Json> {
    var v :- p;
    if Falsy(v) then q else p
  }

  function DefaultOf(p: Outcome<Json>, q: Outcome<Json>): Outcome<Json> {
    var v :- p;
    if Nullish(v) then q else p
  }

  function GlueOf(p: Outcome<Json>, q: Outcome<Json>): Outcome<Json> {
    var v :- p;
    var w :- q;
    Returns(Str(StringOf(v) + StringOf(w)))
  }

  function Elements(p: Outcome<Json>): Outcome<seq<Json>> {
    var v :- p;
    Iterate(v)
  }

  function SpreadOf(p: Outcome<seq<Json>>, q: Outcome<seq<Json>>): Outcome<Json> {
    var xs :- p;
    var ys :- q;
    Returns(Arr(xs + ys))
  }

  function ListOfOne(p: Outcome<Json>): Outcome<Json> {
    var v :- p;
    Returns(Arr(if Falsy(v) then [] else [v]))
  }

  function LowerOf(p: Outcome<Json>): Outcome<Json> {
    var v :- p;
    if v.Str? then Returns(Str(ToLower(v.text))) else Throws
  }

  function BeforeDot(s: string): string {
    if s == "" || s[0] == '.' then "" else [s[0]] + BeforeDot(s[1..])
  }

  function HeadOf(p: Outcome<Json>): Outcome<Json> {
    var v :- p;
    Returns(Str(if v.Str? then BeforeDot(v.text) else ""))
  }

  function NumberOrOf(p: Outcome<Json>, index: nat, number: Json -> Json): Outcome<Json> {
    var v :- p;
    Returns(if Nullish(v) then Num(NatText(index + 1)) else number(v))
  }

  function Applied(p: Outcome<Json>, f: Json -> Json): Outcome<Json> {
    var v :- p;
    Returns(f(v))
  }

  function ArrayOf(p: Outcome<seq<Json>>): Outcome<Json> {
    var xs :- p;
    Returns(Arr(xs))
  }

  function Eval(e: Expr, env: Env, num: Numbers): Outcome<Json>
    decreases e, 0, 0
  {
    match e
    case Lit(text) => Returns(Str(text))
    case Zero => Returns(Num("0"))
    case NullValue => Returns(Null)
    case EmptyList => Returns(Arr([]))
    case EmptyObject => Returns(Obj([]))
    case Name => Returns(Str(env.name))
    case Owner => Returns(Str(env.owner))
    case Self => Returns(env.self)
    case Doc => Returns(env.doc)
    case At(of, key) => AtOf(Eval(of, env, num), key)
    case AtName(of) => EntryOf(Eval(of, env, num), env.name)
    case Either(a, b) => EitherOf(Eval(a, env, num), Eval(b, env, num))
    case Default(a, b) => DefaultOf(Eval(a, env, num), Eval(b, env, num))
    case Glue(a, b) => GlueOf(Eval(a, env, num), Eval(b, env, num))
    case Ordinal => Returns(Str(NatText(env.index + 1)))
    case Spread(a, b) => SpreadOf(Elements(Eval(a, env, num)), Elements(Eval(b, env, num)))
    case ListOf(of) => ListOfOne(Eval(of, env, num))
    case Lower(of) => LowerOf(Eval(of, env, num))
    case Head(of) => HeadOf(Eval(of, env, num))
    case NumberOr(of) => NumberOrOf(Eval(of, env, num), env.index, num.number)
    case Number(of) => Applied(Eval(of, env, num), num.number)
    case Seconds(of) => Applied(Eval(of, env, num), num.seconds)
    case MapItems(of, recipe) =>
      var v :- Eval(of, env, num);
      if v.Arr? then ArrayOf(EvalItems(v.items, recipe, env, num)) else Throws
  }

  function EvalAll(bs: seq<Binding>, env: Env, num: Numbers): Outcome<seq<Field>>
    decreases bs, 0, 0
  {
    if bs == [] then Returns([])
    else
      var v :- Eval(bs[0].value, env, num);
      var rest :- EvalAll(bs[1..], env, num);
      Returns([Field(bs[0].key, v)] + rest)
  }

  function ObjectOf(p: Outcome<seq<Field>>): Outcome<Json> {
    var fs :- p;
    Returns(Obj(Literal(fs)))
  }

  /** The object made of element `i`; its fields are read without a check. */
  function EvalItem(item: Json, i: nat, recipe: seq<Binding>, env: Env, num: Numbers): Outcome<Json>
    decreases recipe, 1, 0
  {
    if Nullish(item) then Throws
    else ObjectOf(EvalAll(recipe, Env(env.name, env.owner, item, env.doc, i), num))
  }

  function Snoc(p: Outcome<seq<Json>>, q: Outcome<Json>): Outcome<seq<Json>> {
    var xs :- p;
    var x :- q;
    Returns(xs + [x])
  }

  function EvalItems(items: seq<Json>, recipe: seq<Binding>, env: Env, num: Numbers): Outcome<seq<Json>>
    decreases recipe, 2, |items|
  {
    if items == [] then Returns([])
    else
      var n := |items| - 1;
      Snoc(EvalItems(items[..n], recipe, env, num), EvalItem(items[n], n, recipe, env, num))
  }

  // ---- evaluation that cannot fail ----

  /** Expressions that cannot throw. */
  predicate Calm(e: Expr) {
    match e
    case At(of, _) => Calm(of)
    case AtName(of) => Calm(of)
    case Either(a, b) => Calm(a) && Calm(b)
    case Default(a, b) => Calm(a) && Calm(b)
    case Glue(a, b) => Calm(a) && Calm(b)
    case ListOf(of) => Calm(of)
    case Head(of) => Calm(of)
    case NumberOr(of) => Calm(of)
    case Number(of) => Calm(of)
    case Seconds(of) => Calm(of)
    case Spread(_, _) => false
    case Lower(_) => false
    case MapItems(_, _) => false
    case _ => true
  }

  lemma {:induction false} CalmReturns(e: Expr, env: Env, num: Numbers)
    requires Calm(e)
    ensures Eval(e, env, num).Returns?
  {
    match e
    case At(of, _) => CalmReturns(of, env, num);
    case AtName(of) => CalmReturns(of, env, num);
    case Either(a, b) => CalmReturns(a, env, num); CalmReturns(b, env, num);
    case Default(a, b) => CalmReturns(a, env, num); CalmReturns(b, env, num);
    case Glue(a, b) => CalmReturns(a, env, num); CalmReturns(b, env, num);
    case ListOf(of) => CalmReturns(of, env, num);
    case Head(of) => CalmReturns(of, env, num);
    case NumberOr(of) => CalmReturns(of, env, num);
    case Number(of) => CalmReturns(of, env, num);
    case Seconds(of) => CalmReturns(of, env, num);
    case _ =>
  }

  lemma {:induction false} EvalAllReturns(bs: seq<Binding>, env: Env, num: Numbers)
    requires forall i :: 0 <= i < |bs| ==> Eval(bs[i].value, env, num).Returns?
    ensures EvalAll(bs, env, num).Returns?
  {
    if bs != [] {
      assert Eval(bs[0].value, env, num).Returns?;
      forall i | 0 <= i < |bs[1..]| ensures Eval(bs[1..][i].value, env, num).Returns? {
        assert bs[1..][i] == bs[i + 1];
      }
      EvalAllReturns(bs[1..], env, num);
    }
  }

  // ---- evaluation does not see the order of keys ----

  ghost predicate EnvEquiv(x: Env, y: Env) {
    && x.name == y.name && x.name != PROTO && x.owner == y.owner && x.index == y.index
    && Equiv(x.self, y.self) && Equiv(x.doc, y.doc)
  }

  ghost predicate OutEquiv(p: Outcome<Json>, q: Outcome<Json>) {
    (p.Throws? <==> q.Throws?) && (p.Returns? ==> Equiv(p.value, q.value))
  }

  /** Conversion to a number does not depend on the order of keys. */
  ghost predicate OrderBlind(num: Numbers) {
    forall v, w :: Equiv(v, w) ==> Equiv(num.number(v), num.number(w)) && Equiv(num.seconds(v), num.seconds(w))
  }

  lemma {:induction false} NatTextDigits(n: nat)
    ensures forall i :: 0 <= i < |NatText(n)| ==> IsDigit(NatText(n)[i])
    ensures n > 0 ==> NatText(n)[0] != '0'
  {
    if n >= 10 {
      NatTextDigits(n / 10);
      assert NatText(n)[0] == NatText(n / 10)[0];
    }
  }

  lemma {:induction false} DigitRunAll(s: string)
    requires forall i :: 0 <= i < |s| ==> IsDigit(s[i])
    ensures DigitRun(s) == |s|
  {
    if s != "" { DigitRunAll(s[1..]); }
  }

  lemma NatTextIsNumber(n: nat)
    requires n > 0
    ensures Solid(Num(NatText(n)))
  {
    var s := NatText(n);
    NatTextDigits(n);
    DigitRunAll(s);
    assert s[0] != '-';
    assert s[|s|..] == "";
  }

  lemma EntryEquiv(v: Json, w: Json, k: string)
    requires Equiv(v, w) && k != PROTO
    ensures Equiv(GetField(ObjectEntries(v), k), GetField(ObjectEntries(w), k))
  {
    match v
    case Obj(_) => GetEquiv(v, w, k);
    case Arr(items) =>
      ArrayEquiv(items, w.items);
      IndexedEquiv(items, w.items);
      SameFieldsGet(Indexed(items), Indexed(w.items), k);
    case Str(s) =>
      assert FieldsEquiv(Indexed(Chars(s)), Indexed(Chars(s)));
      SameFieldsGet(Indexed(Chars(s)), Indexed(Chars(s)), k);
    case _ =>
  }

  lemma IndexedEquiv(a: seq<Json>, b: seq<Json>)
    requires AllEquiv(a, b)
    ensures FieldsEquiv(Indexed(a), Indexed(b))
  {
  }

  lemma {:induction false} SameFieldsGet(a: seq<Field>, b: seq<Field>, k: string)
    requires FieldsEquiv(a, b)
    ensures Equiv(GetField(a, k), GetField(b, k))
  {
    if a != [] && a[0].key != k { SameFieldsGet(a[1..], b[1..], k); }
  }

  lemma ConcatEquiv(a: seq<Json>, b: seq<Json>, c: seq<Json>, d: seq<Json>)
    requires AllEquiv(a, c) && AllEquiv(b, d)
    ensures AllEquiv(a + b, c + d)
  {
    forall i | 0 <= i < |a + b| ensures !(a + b)[i].Undef? && Equiv((a + b)[i], (c + d)[i]) {
      if i < |a| { assert Equiv(a[i], c[i]); } else { assert Equiv(b[i - |a|], d[i - |a|]); }
    }
  }

  ghost predicate ItemsOut(p: Outcome<seq<Json>>, q: Outcome<seq<Json>>) {
    (p.Throws? <==> q.Throws?) && (p.Returns? ==> AllEquiv(p.value, q.value))
  }

  lemma AtSame(p: Outcome<Json>, q: Outcome<Json>, k: string)
    requires OutEquiv(p, q) && k != PROTO
    ensures OutEquiv(AtOf(p, k), AtOf(q, k)) && OutEquiv(EntryOf(p, k), EntryOf(q, k))
  {
    if p.Returns? {
      GetEquiv(p.value, q.value, k);
      EntryEquiv(p.value, q.value, k);
    }
  }

  lemma GlueSame(p: Outcome<Json>, q: Outcome<Json>, r: Outcome<Json>, s: Outcome<Json>)
    requires OutEquiv(p, q) && OutEquiv(r, s)
    ensures OutEquiv(GlueOf(p, r), GlueOf(q, s))
  {
    if p.Returns? && r.Returns? {
      StringEquiv(p.value, q.value);
      StringEquiv(r.value, s.value);
    }
  }

  lemma ElementsSame(p: Outcome<Json>, q: Outcome<Json>)
    requires OutEquiv(p, q)
    ensures ItemsOut(Elements(p), Elements(q))
  {
    if p.Returns? { IterateEquiv(p.value, q.value); }
  }

  lemma SpreadSame(p: Outcome<seq<Json>>, q: Outcome<seq<Json>>, r: Outcome<seq<Json>>, s: Outcome<seq<Json>>)
    requires ItemsOut(p, q) && ItemsOut(r, s)
    ensures OutEquiv(SpreadOf(p, r), SpreadOf(q, s))
  {
    if p.Returns? && r.Returns? {
      ConcatEquiv(p.value, r.value, q.value, s.value);
      ArrayEquiv(p.value + r.value, q.value + s.value);
    }
  }

  lemma ListOfSame(p: Outcome<Json>, q: Outcome<Json>)
    requires OutEquiv(p, q)
    ensures OutEquiv(ListOfOne(p), ListOfOne(q))
  {
    if p.Returns? {
      var v, w := p.value, q.value;
      ArrayEquiv(if Falsy(v) then [] else [v], if Falsy(w) then [] else [w]);
    }
  }

  lemma ArraySame(p: Outcome<seq<Json>>, q: Outcome<seq<Json>>)
    requires ItemsOut(p, q)
    ensures OutEquiv(ArrayOf(p), ArrayOf(q))
  {
    if p.Returns? { ArrayEquiv(p.value, q.value); }
  }

  lemma NumberSame(p: Outcome<Json>, q: Outcome<Json>, index: nat, num: Numbers)
    requires OutEquiv(p, q) && OrderBlind(num)
    ensures OutEquiv(NumberOrOf(p, index, num.number), NumberOrOf(q, index, num.number))
    ensures OutEquiv(Applied(p, num.number), Applied(q, num.number))
    ensures OutEquiv(Applied(p, num.seconds), Applied(q, num.seconds))
  {
    NatTextIsNumber(index + 1);
  }

  lemma ZeroIsSolid()
    ensures Solid(Num("0"))
  {
    assert DigitRun("0") == 1 + DigitRun("0"[1..]);
    assert "0"[1..] == "";
  }

  lemma LeafSame(e: Expr, x: Env, y: Env, num: Numbers)
    requires EnvEquiv(x, y)
    requires e.Lit? || e.Zero? || e.NullValue? || e.EmptyList? || e.EmptyObject? || e.Name? || e.Owner? || e.Self?
          || e.Doc? || e.Ordinal?
    ensures OutEquiv(Eval(e, x, num), Eval(e, y, num))
  {
    if e.Zero? {
      ZeroIsSolid();
    } else if !e.Self? && !e.Doc? {
      SameLeaf(e, x, y, num);
    }
  }

  lemma SameLeaf(e: Expr, x: Env, y: Env, num: Numbers)
    requires EnvEquiv(x, y)
    requires e.Lit? || e.NullValue? || e.EmptyList? || e.EmptyObject? || e.Name? || e.Owner? || e.Ordinal?
    ensures OutEquiv(Eval(e, x, num), Eval(e, y, num))
  {
    var v := Eval(e, x, num);
    assert v == Eval(e, y, num) && v.Returns? && Solid(v.value);
  }

  ghost predicate Same(e: Expr, x: Env, y: Env, num: Numbers) {
    OutEquiv(Eval(e, x, num), Eval(e, y, num))
  }

  /** Whatever an object literal computes, it computes the same up to key order from definitions that are
      the same up to key order. */
  lemma {:induction false} EvalEquiv(e: Expr, x: Env, y: Env, num: Numbers)
    requires EnvEquiv(x, y) && OrderBlind(num)
    ensures Same(e, x, y, num)
    decreases e, 1, 0
  {
    if e.At? || e.AtName? || e.ListOf? {
      ReadEquiv(e, x, y, num);
    } else if e.Lower? || e.Head? {
      TextEquiv(e, x, y, num);
    } else if e.NumberOr? || e.Number? || e.Seconds? {
      ConvertEquiv(e, x, y, num);
    } else if e.Either? || e.Default? {
      ChooseEquiv(e, x, y, num);
    } else if e.Glue? {
      GlueEquiv(e, x, y, num);
    } else if e.Spread? {
      SpreadEquiv(e, x, y, num);
    } else if e.MapItems? {
      MapEquiv(e, x, y, num);
    } else {
      LeafSame(e, x, y, num);
    }
  }

  lemma AtReads(e: Expr, x: Env, y: Env, num: Numbers)
    requires e.At? && Same(e.of, x, y, num)
    ensures Same(e, x, y, num)
  {
    var p, q := Eval(e.of, x, num), Eval(e.of, y, num);
    AtSame(p, q, e.key);
    assert Eval(e, x, num) == AtOf(p, e.key) && Eval(e, y, num) == AtOf(q, e.key);
  }

  lemma AtNameReads(e: Expr, x: Env, y: Env, num: Numbers)
    requires EnvEquiv(x, y) && e.AtName? && Same(e.of, x, y, num)
    ensures Same(e, x, y, num)
  {
    var p, q := Eval(e.of, x, num), Eval(e.of, y, num);
    AtSame(p, q, x.name);
    assert Eval(e, x, num) == EntryOf(p, x.name) && Eval(e, y, num) == EntryOf(q, y.name);
  }

  lemma ListOfReads(e: Expr, x: Env, y: Env, num: Numbers)
    requires e.ListOf? && Same(e.of, x, y, num)
    ensures Same(e, x, y, num)
  {
    var p, q := Eval(e.of, x, num), Eval(e.of, y, num);
    ListOfSame(p, q);
    assert Eval(e, x, num) == ListOfOne(p) && Eval(e, y, num) == ListOfOne(q);
  }

  lemma {:induction false} ReadEquiv(e: Expr, x: Env, y: Env, num: Numbers)
    requires EnvEquiv(x, y) && OrderBlind(num) && (e.At? || e.AtName? || e.ListOf?)
    ensures Same(e, x, y, num)
    decreases e, 0, 0
  {
    EvalEquiv(e.of, x, y, num);
    if e.At? {
      AtReads(e, x, y, num);
    } else if e.AtName? {
      AtNameReads(e, x, y, num);
    } else {
      ListOfReads(e, x, y, num);
    }
  }

  lemma TextSame(p: Outcome<Json>, q: Outcome<Json>)
    requires OutEquiv(p, q)
    ensures OutEquiv(LowerOf(p), LowerOf(q)) && OutEquiv(HeadOf(p), HeadOf(q))
  {
  }

  lemma {:induction false} TextEquiv(e: Expr, x: Env, y: Env, num: Numbers)
    requires EnvEquiv(x, y) && OrderBlind(num) && (e.Lower? || e.Head?)
    ensures Same(e, x, y, num)
    decreases e, 0, 0
  {
    EvalEquiv(e.of, x, y, num);
    TextSame(Eval(e.of, x, num), Eval(e.of, y, num));
  }

  lemma {:induction false} ConvertEquiv(e: Expr, x: Env, y: Env, num: Numbers)
    requires EnvEquiv(x, y) && OrderBlind(num) && (e.NumberOr? || e.Number? || e.Seconds?)
    ensures Same(e, x, y, num)
    decreases e, 0, 0
  {
    EvalEquiv(e.of, x, y, num);
    NumberSame(Eval(e.of, x, num), Eval(e.of, y, num), x.index, num);
  }

  lemma ChoiceSame(p: Outcome<Json>, q: Outcome<Json>, r: Outcome<Json>, s: Outcome<Json>)
    requires OutEquiv(p, q) && OutEquiv(r, s)
    ensures OutEquiv(EitherOf(p, r), EitherOf(q, s)) && OutEquiv(DefaultOf(p, r), DefaultOf(q, s))
  {
  }

  lemma {:induction false} ChooseEquiv(e: Expr, x: Env, y: Env, num: Numbers)
    requires EnvEquiv(x, y) && OrderBlind(num) && (e.Either? || e.Default?)
    ensures Same(e, x, y, num)
    decreases e, 0, 0
  {
    EvalEquiv(e.a, x, y, num);
    EvalEquiv(e.b, x, y, num);
    ChoiceSame(Eval(e.a, x, num), Eval(e.a, y, num), Eval(e.b, x, num), Eval(e.b, y, num));
  }

  lemma {:induction false} GlueEquiv(e: Expr, x: Env, y: Env, num: Numbers)
    requires EnvEquiv(x, y) && OrderBlind(num) && e.Glue?
    ensures Same(e, x, y, num)
    decreases e, 0, 0
  {
    EvalEquiv(e.a, x, y, num);
    EvalEquiv(e.b, x, y, num);
    GlueSame(Eval(e.a, x, num), Eval(e.a, y, num), Eval(e.b, x, num), Eval(e.b, y, num));
  }

  lemma {:induction false} SpreadEquiv(e: Expr, x: Env, y: Env, num: Numbers)
    requires EnvEquiv(x, y) && OrderBlind(num) && e.Spread?
    ensures Same(e, x, y, num)
    decreases e, 0, 0
  {
    EvalEquiv(e.a, x, y, num);
    EvalEquiv(e.b, x, y, num);
    ElementsSame(Eval(e.a, x, num), Eval(e.a, y, num));
    ElementsSame(Eval(e.b, x, num), Eval(e.b, y, num));
    SpreadSame(Elements(Eval(e.a, x, num)), Elements(Eval(e.a, y, num)), Elements(Eval(e.b, x, num)),
               Elements(Eval(e.b, y, num)));
  }

  lemma {:induction false} MapEquiv(e: Expr, x: Env, y: Env, num: Numbers)
    requires EnvEquiv(x, y) && OrderBlind(num) && e.MapItems?
    ensures Same(e, x, y, num)
    decreases e, 0, 0
  {
    EvalEquiv(e.of, x, y, num);
    var p, q := Eval(e.of, x, num), Eval(e.of, y, num);
    if p.Returns? && p.value.Arr? {
      ArrayEquiv(p.value.items, q.value.items);
      EvalItemsEquiv(p.value.items, q.value.items, e.recipe, x, y, num);
      ArraySame(EvalItems(p.value.items, e.recipe, x, num), EvalItems(q.value.items, e.recipe, y, num));
    }
  }

  ghost predicate FieldsOut(p: Outcome<seq<Field>>, q: Outcome<seq<Field>>) {
    (p.Throws? <==> q.Throws?) && (p.Returns? ==> FieldsEquiv(p.value, q.value))
  }

  lemma FieldsOutMore(k: Key, p: Outcome<Json>, q: Outcome<Json>, r: Outcome<seq<Field>>, s: Outcome<seq<Field>>)
    requires OutEquiv(p, q) && FieldsOut(r, s)
    ensures p.Returns? && r.Returns? ==> FieldsEquiv([Field(k, p.value)] + r.value, [Field(k, q.value)] + s.value)
  {
  }

  lemma {:induction false} EvalAllEquiv(bs: seq<Binding>, x: Env, y: Env, num: Numbers)
    requires EnvEquiv(x, y) && OrderBlind(num)
    ensures FieldsOut(EvalAll(bs, x, num), EvalAll(bs, y, num))
    decreases bs, 0, 0
  {
    if bs != [] {
      EvalEquiv(bs[0].value, x, y, num);
      EvalAllEquiv(bs[1..], x, y, num);
      FieldsOutMore(bs[0].key, Eval(bs[0].value, x, num), Eval(bs[0].value, y, num),
                    EvalAll(bs[1..], x, num), EvalAll(bs[1..], y, num));
    }
  }

  lemma {:induction false} EvalItemsEquiv(a: seq<Json>, b: seq<Json>, recipe: seq<Binding>, x: Env, y: Env,
                                          num: Numbers)
    requires AllEquiv(a, b) && EnvEquiv(x, y) && OrderBlind(num)
    ensures ItemsOut(EvalItems(a, recipe, x, num), EvalItems(b, recipe, y, num))
    decreases recipe, 2, |a|
  {
    if a != [] {
      var n := |a| - 1;
      EvalItemsEquiv(a[..n], b[..n], recipe, x, y, num);
      EvalItemEquiv(a[n], b[n], n, recipe, x, y, num);
      SnocSame(EvalItems(a[..n], recipe, x, num), EvalItems(b[..n], recipe, y, num),
               EvalItem(a[n], n, recipe, x, num), EvalItem(b[n], n, recipe, y, num));
    }
  }

  lemma EvalItemEquiv(v: Json, w: Json, i: nat, recipe: seq<Binding>, x: Env, y: Env, num: Numbers)
    requires Equiv(v, w) && EnvEquiv(x, y) && OrderBlind(num)
    ensures OutEquiv(EvalItem(v, i, recipe, x, num), EvalItem(w, i, recipe, y, num))
    ensures EvalItem(v, i, recipe, x, num).Returns? ==> EvalItem(v, i, recipe, x, num).value.Obj?
    decreases recipe, 1, 0
  {
    if !Nullish(v) {
      var p, q := Env(x.name, x.owner, v, x.doc, i), Env(y.name, y.owner, w, y.doc, i);
      EvalAllEquiv(recipe, p, q, num);
      ObjectSame(EvalAll(recipe, p, num), EvalAll(recipe, q, num));
    }
  }

  lemma SnocSame(p: Outcome<seq<Json>>, q: Outcome<seq<Json>>, r: Outcome<Json>, s: Outcome<Json>)
    requires ItemsOut(p, q) && OutEquiv(r, s) && (r.Returns? ==> !r.value.Undef?)
    ensures ItemsOut(Snoc(p, r), Snoc(q, s))
  {
    if p.Returns? && r.Returns? { ConcatEquiv(p.value, [r.value], q.value, [s.value]); }
  }

  lemma ObjectSame(p: Outcome<seq<Field>>, q: Outcome<seq<Field>>)
    requires FieldsOut(p, q)
    ensures OutEquiv(ObjectOf(p), ObjectOf(q))
  {
    if p.Returns? { LiteralsEquiv(p.value, q.value); }
  }

  lemma LiteralsEquiv(fs: seq<Field>, gs: seq<Field>)
    requires FieldsEquiv(fs, gs)
    ensures Equiv(Obj(Literal(fs)), Obj(Literal(gs)))
  {
    LiteralEquiv(fs, gs);
    ObjectEquiv(Literal(fs), Literal(gs));
  }
}
