// How the compiler's code reads parsed documents: defaults, iteration, templates, and the errors that
// malformed documents raise. Two values are equivalent when they differ in the order of keys only.

module Js {
  import opened Text
  import opened JsonValue

  /** The outcome of code that may throw. */
  datatype Outcome<+T> = Throws | Returns(value: T) {
    predicate IsFailure() { Throws? }

    function PropagateFailure<U>(): Outcome<U>
      requires IsFailure()
    {
      Throws
    }

    function Extract(): T
      requires !IsFailure()
    {
      value
    }
  }

  /** `a || b` */
  function Or(a: Json, b: Json): Json {
    if Falsy(a) then b else a
  }

  function Chars(s: string): seq<Json> {
    seq(|s|, i requires 0 <= i < |s| => Str([s[i]]))
  }

  /** The elements of `...v` and of `for (const x of v)`. */
  function Iterate(v: Json): Outcome<seq<Json>> {
    match v
    case Arr(items) => Returns(items)
    case Str(s) => Returns(Chars(s))
    case _ => Throws
  }

  function Indexed(items: seq<Json>): seq<Field> {
    seq(|items|, i requires 0 <= i < |items| => Field(NatText(i), items[i]))
  }

  /** `Object.entries(v)`, of a value that is not nullish. */
  function ObjectEntries(v: Json): seq<Field> {
    match v
    case Obj(fs) => fs
    case Arr(items) => Indexed(items)
    case Str(s) => Indexed(Chars(s))
    case _ => []
  }

  function JoinItems(items: seq<Json>): string {
    if items == [] then ""
    else
      var x := if Nullish(items[0]) then "" else StringOf(items[0]);
      if |items| == 1 then x else x + ("," + JoinItems(items[1..]))
  }

  /** `String(v)`, and `${v}` */
  function StringOf(v: Json): string {
    match v
    case Undef => "undefined"
    case Null => "null"
    case Bool(b) => if b then "true" else "false"
    case Num(t) => t
    case Str(s) => s
    case Arr(items) => JoinItems(items)
    case Obj(_) => "[object Object]"
  }

  // ---- values as they occur ----

  /** Well formed, and without `undefined` array elements. */
  predicate Solid(v: Json) {
    match v
    case Num(t) => NumberToken(t)
    case Arr(items) => forall i :: 0 <= i < |items| ==> !items[i].Undef? && Solid(items[i])
    case Obj(fs) => DistinctKeys(fs) && forall i :: 0 <= i < |fs| ==> Solid(fs[i].value)
    case _ => true
  }

  /** A parsed document: nothing undefined, keys distinct, none called `__proto__`. */
  predicate Parsed(v: Json) {
    match v
    case Undef => false
    case Num(t) => NumberToken(t)
    case Arr(items) => forall i :: 0 <= i < |items| ==> Parsed(items[i])
    case Obj(fs) => DistinctKeys(fs) && forall i :: 0 <= i < |fs| ==> fs[i].key != PROTO && Parsed(fs[i].value)
    case _ => true
  }

  lemma {:induction false} ParsedIsSolid(v: Json)
    requires Parsed(v)
    ensures Solid(v)
  {
    match v
    case Arr(items) =>
      forall i | 0 <= i < |items| ensures Solid(items[i]) { ParsedIsSolid(items[i]); }
    case Obj(fs) =>
      forall i | 0 <= i < |fs| ensures Solid(fs[i].value) { ParsedIsSolid(fs[i].value); }
    case _ =>
  }

  lemma {:induction false} SolidIsWellFormed(v: Json)
    requires Solid(v)
    ensures WellFormed(v)
  {
    match v
    case Arr(items) =>
      forall i | 0 <= i < |items| ensures WellFormed(items[i]) { SolidIsWellFormed(items[i]); }
    case Obj(fs) =>
      forall i | 0 <= i < |fs| ensures WellFormed(fs[i].value) { SolidIsWellFormed(fs[i].value); }
    case _ =>
  }

  lemma {:induction false} ParsedField(fs: seq<Field>, k: string)
    requires Parsed(Obj(fs))
    ensures GetField(fs, k).Undef? || Parsed(GetField(fs, k))
  {
    if fs != [] && fs[0].key != k {
      assert Parsed(Obj(fs[1..])) by {
        assert forall i :: 0 <= i < |fs[1..]| ==> fs[1..][i] == fs[i + 1];
      }
      ParsedField(fs[1..], k);
    }
  }

  lemma {:induction false} SolidField(fs: seq<Field>, k: string)
    requires Solid(Obj(fs))
    ensures Solid(GetField(fs, k))
  {
    if fs != [] && fs[0].key != k {
      assert Solid(Obj(fs[1..])) by {
        assert forall i :: 0 <= i < |fs[1..]| ==> fs[1..][i] == fs[i + 1];
      }
      SolidField(fs[1..], k);
    }
  }

  // ---- equivalence ----

  /** The same value up to the order of keys. */
  ghost predicate Equiv(v: Json, w: Json) {
    Solid(v) && Solid(w) && (v.Undef? <==> w.Undef?) && Meaning(v) == Meaning(w)
  }

  lemma GetEquiv(v: Json, w: Json, k: string)
    requires Equiv(v, w) && k != PROTO
    ensures Equiv(Get(v, k), Get(w, k))
  {
    if v.Obj? {
      GetMeaning(v.fields, k);
      GetMeaning(w.fields, k);
      SolidField(v.fields, k);
      SolidField(w.fields, k);
    }
  }

  lemma OrEquiv(a: Json, b: Json, x: Json, y: Json)
    requires Equiv(a, x) && Equiv(b, y)
    ensures Equiv(Or(a, b), Or(x, y)) && Equiv(OrElse(a, b), OrElse(x, y))
    ensures Falsy(a) == Falsy(x) && Nullish(a) == Nullish(x)
  {
  }

  lemma ItemEquiv(a: seq<Json>, b: seq<Json>, i: nat)
    requires Equiv(Arr(a), Arr(b)) && i < |a|
    ensures |a| == |b| && Equiv(a[i], b[i])
  {
    assert |Meanings(a)| == |Meanings(b)|;
    assert Meanings(a)[i] == Meanings(b)[i];
  }

  lemma TailEquiv(a: seq<Json>, b: seq<Json>)
    requires Equiv(Arr(a), Arr(b)) && a != []
    ensures |a| == |b| && Equiv(Arr(a[1..]), Arr(b[1..]))
  {
    ItemEquiv(a, b, 0);
    assert Meanings(a)[1..] == Meanings(a[1..]) && Meanings(b)[1..] == Meanings(b[1..]);
  }

  lemma {:induction false} StringEquiv(v: Json, w: Json)
    requires Equiv(v, w)
    ensures StringOf(v) == StringOf(w)
  {
    if v.Arr? { JoinEquiv(v.items, w.items); }
  }

  lemma {:induction false} JoinEquiv(a: seq<Json>, b: seq<Json>)
    requires Equiv(Arr(a), Arr(b))
    ensures JoinItems(a) == JoinItems(b)
  {
    assert |Meanings(a)| == |Meanings(b)|;
    if a != [] {
      ItemEquiv(a, b, 0);
      TailEquiv(a, b);
      StringEquiv(a[0], b[0]);
      JoinEquiv(a[1..], b[1..]);
    }
  }

  ghost predicate AllEquiv(a: seq<Json>, b: seq<Json>) {
    |a| == |b| && forall i :: 0 <= i < |a| ==> !a[i].Undef? && Equiv(a[i], b[i])
  }

  /** Lists of pairwise equivalent, defined elements are equivalent arrays, and conversely. */
  lemma ArrayEquiv(a: seq<Json>, b: seq<Json>)
    ensures Equiv(Arr(a), Arr(b)) <==> AllEquiv(a, b)
  {
    if Equiv(Arr(a), Arr(b)) {
      assert |Meanings(a)| == |Meanings(b)|;
      forall i | 0 <= i < |a| ensures !a[i].Undef? && Equiv(a[i], b[i]) { ItemEquiv(a, b, i); }
    }
    if AllEquiv(a, b) { assert Meanings(a) == Meanings(b); }
  }

  lemma IterateEquiv(v: Json, w: Json)
    requires Equiv(v, w)
    ensures Iterate(v).Throws? <==> Iterate(w).Throws?
    ensures Iterate(v).Returns? ==> AllEquiv(Iterate(v).value, Iterate(w).value)
  {
    if v.Arr? { ArrayEquiv(v.items, w.items); }
  }

  // ---- objects written field by field ----

  /** An object literal: the fields in order, a later one replacing an earlier one of the same name. */
  function Literal(fs: seq<Field>): seq<Field> {
    if fs == [] then []
    else Put(Literal(fs[..|fs| - 1]), fs[|fs| - 1].key, fs[|fs| - 1].value)
  }

  ghost predicate FieldsEquiv(a: seq<Field>, b: seq<Field>) {
    |a| == |b| && forall i :: 0 <= i < |a| ==> a[i].key == b[i].key && Equiv(a[i].value, b[i].value)
  }

  lemma {:induction false} PutEquiv(a: seq<Field>, b: seq<Field>, k: string, v: Json, w: Json)
    requires FieldsEquiv(a, b) && Equiv(v, w)
    ensures FieldsEquiv(Put(a, k, v), Put(b, k, w))
  {
    if a != [] {
      assert HasKey(a, k) <==> HasKey(b, k) by {
        assert forall i :: 0 <= i < |a| ==> a[i].key == b[i].key;
        if i :| 0 <= i < |a| && a[i].key == k { assert b[i].key == k; }
        if i :| 0 <= i < |b| && b[i].key == k { assert a[i].key == k; }
      }
      PutEquiv(a[1..], b[1..], k, v, w);
    }
  }

  lemma {:induction false} LiteralEquiv(a: seq<Field>, b: seq<Field>)
    requires FieldsEquiv(a, b)
    ensures FieldsEquiv(Literal(a), Literal(b))
    ensures DistinctKeys(Literal(a)) && DistinctKeys(Literal(b))
  {
    if a != [] {
      var n := |a| - 1;
      LiteralEquiv(a[..n], b[..n]);
      PutEquiv(Literal(a[..n]), Literal(b[..n]), a[n].key, a[n].value, b[n].value);
      PutIs(Literal(a[..n]), a[n].key, a[n].value);
      PutIs(Literal(b[..n]), b[n].key, b[n].value);
    }
  }

  lemma {:induction false} FieldsMeanTheSame(a: seq<Field>, b: seq<Field>)
    requires FieldsEquiv(a, b)
    ensures FieldMeanings(a) == FieldMeanings(b)
  {
    if a != [] {
      FieldsMeanTheSame(a[1..], b[1..]);
    }
  }

  lemma ObjectEquiv(a: seq<Field>, b: seq<Field>)
    requires FieldsEquiv(a, b) && DistinctKeys(a) && DistinctKeys(b)
    ensures Equiv(Obj(a), Obj(b))
  {
    FieldsMeanTheSame(a, b);
  }
}
