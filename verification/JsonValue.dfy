// JSON values as the host language holds them: objects list their own properties in enumeration
// order, `undefined` may occur, and assignment to a property called `__proto__` adds no property.

module JsonValue {
  import opened Text
  import opened Sorting

  datatype Field = Field(key: string, value: Json)

  /** Numbers are kept as the decimal token the printer writes for them. */
  datatype Json =
    | Undef
    | Null
    | Bool(flag: bool)
    | Num(token: string)
    | Str(text: string)
    | Arr(items: seq<Json>)
    | Obj(fields: seq<Field>)

  const PROTO: string := "__proto__"

  // ---- the order in which an object lists its keys ----

  /** A canonical array index below 2^32 - 1. */
  predicate IsIndex(k: string) {
    k == "0" ||
    (k != "" && '1' <= k[0] <= '9' && (forall i :: 0 <= i < |k| ==> IsDigit(k[i]))
     && (|k| < 10 || (|k| == 10 && !TextLess("4294967294", k))))
  }

  /** Numeric order of canonical indices. */
  predicate IndexLess(a: string, b: string) {
    |a| < |b| || (|a| == |b| && TextLess(a, b))
  }

  /** Array indices first, in numeric order, then the other keys in string order. */
  predicate KeyLess(a: string, b: string) {
    if IsIndex(a) then (if IsIndex(b) then IndexLess(a, b) else true)
    else !IsIndex(b) && TextLess(a, b)
  }

  predicate FieldLess(a: Field, b: Field) {
    KeyLess(a.key, b.key)
  }

  lemma KeyLessIrreflexive(a: string)
    ensures !KeyLess(a, a)
  {
    TextLessIrreflexive(a);
  }

  lemma KeyLessTransitive(a: string, b: string, c: string)
    requires KeyLess(a, b) && KeyLess(b, c)
    ensures KeyLess(a, c)
  {
    if TextLess(a, b) && TextLess(b, c) { TextLessTransitive(a, b, c); }
  }

  lemma KeyLessTotal(a: string, b: string)
    requires a != b
    ensures KeyLess(a, b) || KeyLess(b, a)
  {
    TextLessTotal(a, b);
  }

  lemma FieldOrderIsWeak()
    ensures StrictWeak(FieldLess)
  {
    forall x: Field ensures !FieldLess(x, x) { KeyLessIrreflexive(x.key); }
    forall x: Field, y, z | FieldLess(x, y) && FieldLess(y, z) ensures FieldLess(x, z) {
      KeyLessTransitive(x.key, y.key, z.key);
    }
    forall x: Field, y: Field, z | FieldLess(x, z) ensures FieldLess(x, y) || FieldLess(y, z) {
      if x.key != y.key && !FieldLess(x, y) {
        KeyLessTotal(x.key, y.key);
        KeyLessTransitive(y.key, x.key, z.key);
      }
    }
  }

  // ---- objects ----

  predicate HasKey(fs: seq<Field>, k: string) {
    exists i :: 0 <= i < |fs| && fs[i].key == k
  }

  predicate DistinctKeys(fs: seq<Field>) {
    forall i, j :: 0 <= i < j < |fs| ==> fs[i].key != fs[j].key
  }

  /** Creating or overwriting the own property `k`: a new index goes to its numeric place, any other
      new key to the end. */
  function Put(fs: seq<Field>, k: string, v: Json): seq<Field> {
    if fs == [] then [Field(k, v)]
    else if fs[0].key == k then [Field(k, v)] + fs[1..]
    else if IsIndex(k) && !HasKey(fs, k) && KeyLess(k, fs[0].key) then [Field(k, v)] + fs
    else [fs[0]] + Put(fs[1..], k, v)
  }

  /** `object[k] = v` */
  function Assign(fs: seq<Field>, k: string, v: Json): seq<Field> {
    if k == PROTO then fs else Put(fs, k, v)
  }

  function GetField(fs: seq<Field>, k: string): Json {
    if fs == [] then Undef else if fs[0].key == k then fs[0].value else GetField(fs[1..], k)
  }

  /** `value?.k`, for a name that no built-in prototype defines. */
  function Get(v: Json, k: string): Json {
    if v.Obj? then GetField(v.fields, k) else Undef
  }

  predicate Nullish(v: Json) {
    v.Undef? || v.Null?
  }

  /** `a ?? b` */
  function OrElse(a: Json, b: Json): Json {
    if Nullish(a) then b else a
  }

  /** `!v` */
  predicate Falsy(v: Json) {
    match v
    case Undef => true
    case Null => true
    case Bool(b) => !b
    case Num(t) => ZeroToken(t)
    case Str(s) => s == ""
    case _ => false
  }

  /** The token of a zero: no digit but 0 before an exponent. */
  predicate ZeroToken(t: string) {
    t == "" || t[0] == 'e' || t[0] == 'E' || (!('1' <= t[0] <= '9') && ZeroToken(t[1..]))
  }

  /** `delete object.k` */
  function Delete(fs: seq<Field>, k: string): seq<Field> {
    if fs == [] then [] else (if fs[0].key == k then [] else [fs[0]]) + Delete(fs[1..], k)
  }

  lemma HasKeyTail(fs: seq<Field>, k: string)
    requires fs != []
    ensures HasKey(fs, k) <==> fs[0].key == k || HasKey(fs[1..], k)
  {
    if i :| 0 <= i < |fs[1..]| && fs[1..][i].key == k { assert fs[i + 1].key == k; }
    if i :| 0 < i < |fs| && fs[i].key == k { assert fs[1..][i - 1].key == k; }
  }

  lemma PutReplaces(fs: seq<Field>, k: string, v: Json)
    requires fs != [] && DistinctKeys(fs) && fs[0].key == k
    ensures var p := [Field(k, v)] + fs[1..];
      DistinctKeys(p) && forall f :: f in p <==> (f in fs && f.key != k) || f == Field(k, v)
  {
    assert fs == [fs[0]] + fs[1..];
    forall f | f in fs[1..] ensures f.key != k {
      var i :| 0 <= i < |fs[1..]| && fs[1..][i] == f;
      assert fs[i + 1] == f;
    }
  }

  lemma PutInFront(fs: seq<Field>, k: string, v: Json)
    requires DistinctKeys(fs) && !HasKey(fs, k)
    ensures var p := [Field(k, v)] + fs;
      DistinctKeys(p) && forall f :: f in p <==> (f in fs && f.key != k) || f == Field(k, v)
  {
    forall f | f in fs ensures f.key != k {
      var i :| 0 <= i < |fs| && fs[i] == f;
    }
  }

  lemma PutIsLater(h: Field, t: seq<Field>, p: seq<Field>, k: string, v: Json)
    requires DistinctKeys([h] + t) && DistinctKeys(p) && h.key != k
    requires forall f :: f in p <==> (f in t && f.key != k) || f == Field(k, v)
    ensures DistinctKeys([h] + p)
    ensures forall f :: f in [h] + p <==> (f in [h] + t && f.key != k) || f == Field(k, v)
  {
    forall f | f in t ensures f.key != h.key {
      var i :| 0 <= i < |t| && t[i] == f;
      assert ([h] + t)[0] == h && ([h] + t)[i + 1] == f;
    }
    var all := [h] + p;
    forall i, j | 0 <= i < j < |all| ensures all[i].key != all[j].key {
      assert all[j] == p[j - 1] && p[j - 1] in p;
    }
  }

  /** Putting replaces the field called `k`, if there is one, and keeps the others. */
  lemma {:induction false} PutIs(fs: seq<Field>, k: string, v: Json)
    requires DistinctKeys(fs)
    ensures DistinctKeys(Put(fs, k, v))
    ensures forall f :: f in Put(fs, k, v) <==> (f in fs && f.key != k) || f == Field(k, v)
  {
    if fs != [] {
      assert fs == [fs[0]] + fs[1..];
      if fs[0].key == k {
        PutReplaces(fs, k, v);
      } else if IsIndex(k) && !HasKey(fs, k) && KeyLess(k, fs[0].key) {
        PutInFront(fs, k, v);
      } else {
        PutIs(fs[1..], k, v);
        PutIsLater(fs[0], fs[1..], Put(fs[1..], k, v), k, v);
      }
    }
  }

  lemma {:induction false} GetPut(fs: seq<Field>, k: string, v: Json, j: string)
    ensures GetField(Put(fs, k, v), j) == if j == k then v else GetField(fs, j)
  {
    if fs != [] && fs[0].key != k { GetPut(fs[1..], k, v, j); }
  }

  // ---- well-formed values ----

  /** The number grammar of section 6 of RFC 8259. */
  predicate NumberToken(s: string) {
    var a := if s != "" && s[0] == '-' then s[1..] else s;
    var n := DigitRun(a);
    n > 0 && (a[0] == '0' ==> n == 1) && Fraction(a[n..])
  }

  predicate Fraction(s: string) {
    if s != "" && s[0] == '.' then
      var n := DigitRun(s[1..]);
      n > 0 && Exponent(s[1..][n..])
    else Exponent(s)
  }

  predicate Exponent(s: string) {
    s == "" ||
    ((s[0] == 'e' || s[0] == 'E') &&
     var b := if |s| > 1 && (s[1] == '+' || s[1] == '-') then s[2..] else s[1..];
     b != "" && DigitRun(b) == |b|)
  }

  /** Keys of an object are distinct and number tokens follow the grammar, at every depth. */
  predicate WellFormed(v: Json) {
    match v
    case Num(t) => NumberToken(t)
    case Arr(items) => forall i :: 0 <= i < |items| ==> WellFormed(items[i])
    case Obj(fs) => DistinctKeys(fs) && forall i :: 0 <= i < |fs| ==> WellFormed(fs[i].value)
    case _ => true
  }

  // ---- what a value means ----

  /** A value up to the order of keys. */
  datatype Value =
    | VNull
    | VBool(flag: bool)
    | VNum(token: string)
    | VStr(text: string)
    | VArr(items: seq<Value>)
    | VObj(fields: map<string, Value>)

  /** Fields that are `undefined` or called `__proto__` do not survive canonicalisation. */
  predicate Kept(f: Field) {
    f.key != PROTO && !f.value.Undef?
  }

  /** Key order is forgotten and dropped fields are left out; `undefined` in an array stands for null. */
  function Meaning(v: Json): Value {
    match v
    case Undef => VNull
    case Null => VNull
    case Bool(b) => VBool(b)
    case Num(t) => VNum(t)
    case Str(s) => VStr(s)
    case Arr(items) => VArr(Meanings(items))
    case Obj(fs) => VObj(FieldMeanings(fs))
  }

  function Meanings(items: seq<Json>): (r: seq<Value>)
    ensures |r| == |items|
    ensures forall i :: 0 <= i < |items| ==> r[i] == Meaning(items[i])
  {
    if items == [] then [] else [Meaning(items[0])] + Meanings(items[1..])
  }

  function FieldMeanings(fs: seq<Field>): map<string, Value> {
    if fs == [] then map[]
    else
      var f := fs[0];
      if Kept(f) then FieldMeanings(fs[1..])[f.key := Meaning(f.value)] else FieldMeanings(fs[1..])
  }

  lemma {:induction false} FieldMeaningsAre(fs: seq<Field>)
    requires DistinctKeys(fs)
    ensures forall k :: k in FieldMeanings(fs) ==> exists i :: 0 <= i < |fs| && fs[i].key == k && Kept(fs[i])
    ensures forall i :: 0 <= i < |fs| && Kept(fs[i]) ==>
              fs[i].key in FieldMeanings(fs) && FieldMeanings(fs)[fs[i].key] == Meaning(fs[i].value)
  {
    if fs != [] {
      FieldMeaningsAre(fs[1..]);
      forall k | k in FieldMeanings(fs) ensures exists i :: 0 <= i < |fs| && fs[i].key == k && Kept(fs[i]) {
        if k in FieldMeanings(fs[1..]) {
          var j :| 0 <= j < |fs[1..]| && fs[1..][j].key == k && Kept(fs[1..][j]);
          assert fs[j + 1].key == k;
        } else {
          assert fs[0].key == k;
        }
      }
      forall i | 0 <= i < |fs| && Kept(fs[i])
        ensures fs[i].key in FieldMeanings(fs) && FieldMeanings(fs)[fs[i].key] == Meaning(fs[i].value)
      {
        if i > 0 { assert fs[1..][i - 1] == fs[i]; }
      }
    }
  }

  lemma AbsentKey(fs: seq<Field>)
    requires fs != [] && DistinctKeys(fs)
    ensures fs[0].key !in FieldMeanings(fs[1..])
  {
    FieldMeaningsAre(fs[1..]);
  }

  /** Reading a field, seen through the meaning. */
  lemma {:induction false} GetMeaning(fs: seq<Field>, k: string)
    requires DistinctKeys(fs) && k != PROTO
    ensures GetField(fs, k).Undef? <==> k !in FieldMeanings(fs)
    ensures k in FieldMeanings(fs) ==> Meaning(GetField(fs, k)) == FieldMeanings(fs)[k]
  {
    if fs != [] {
      if fs[0].key == k { AbsentKey(fs); } else { GetMeaning(fs[1..], k); }
    }
  }

  lemma {:induction false} PutMeaning(fs: seq<Field>, k: string, v: Json)
    requires DistinctKeys(fs) && Kept(Field(k, v)) && !IsIndex(k)
    ensures FieldMeanings(Put(fs, k, v)) == FieldMeanings(fs)[k := Meaning(v)]
  {
    if fs == [] {
      assert FieldMeanings([Field(k, v)][1..]) == map[];
    } else if fs[0].key == k {
      AbsentKey(fs);
      assert ([Field(k, v)] + fs[1..])[1..] == fs[1..];
    } else {
      PutMeaning(fs[1..], k, v);
      assert ([fs[0]] + Put(fs[1..], k, v))[1..] == Put(fs[1..], k, v);
    }
  }

  // ---- sorting the keys ----

  /** The fields that assignment adds, with their values sorted. */
  function SortedFields(fs: seq<Field>): seq<Field> {
    if fs == [] then []
    else (if fs[0].key == PROTO then [] else [Field(fs[0].key, SortKeys(fs[0].value))]) + SortedFields(fs[1..])
  }

  function SortedItems(items: seq<Json>): (r: seq<Json>)
    ensures |r| == |items| && forall i :: 0 <= i < |items| ==> r[i] == SortKeys(items[i])
  {
    if items == [] then [] else [SortKeys(items[0])] + SortedItems(items[1..])
  }

  /** `sortKeys`: objects list their keys in order, at every depth. */
  function SortKeys(v: Json): Json {
    match v
    case Arr(items) => Arr(SortedItems(items))
    case Obj(fs) => Obj(Sort(SortedFields(fs), FieldLess))
    case _ => v
  }

  lemma {:induction false} SortedFieldsAre(fs: seq<Field>)
    requires DistinctKeys(fs)
    ensures DistinctKeys(SortedFields(fs))
    ensures forall f :: f in SortedFields(fs) <==>
              exists i :: 0 <= i < |fs| && fs[i].key != PROTO && f == Field(fs[i].key, SortKeys(fs[i].value))
  {
    if fs != [] {
      SortedFieldsAre(fs[1..]);
      var r, t := SortedFields(fs), SortedFields(fs[1..]);
      forall f
        ensures f in r
           <==> exists i :: 0 <= i < |fs| && fs[i].key != PROTO && f == Field(fs[i].key, SortKeys(fs[i].value))
      {
        if f in t {
          var i :| 0 <= i < |fs[1..]| && fs[1..][i].key != PROTO
                   && f == Field(fs[1..][i].key, SortKeys(fs[1..][i].value));
          assert fs[i + 1] == fs[1..][i];
        }
        if i :| 0 <= i < |fs| && fs[i].key != PROTO && f == Field(fs[i].key, SortKeys(fs[i].value)) {
          if i > 0 { assert fs[1..][i - 1] == fs[i]; assert f in t; }
        }
      }
      NewKeyFirst(fs, t);
    }
  }

  lemma NewKeyFirst(fs: seq<Field>, t: seq<Field>)
    requires fs != [] && DistinctKeys(fs) && DistinctKeys(t)
    requires forall f :: f in t ==> exists i :: 0 <= i < |fs[1..]| && f.key == fs[1..][i].key
    ensures forall j :: 0 <= j < |t| ==> t[j].key != fs[0].key
  {
    forall j | 0 <= j < |t| ensures t[j].key != fs[0].key {
      assert t[j] in t;
      var i :| 0 <= i < |fs[1..]| && t[j].key == fs[1..][i].key;
      assert fs[1..][i] == fs[i + 1];
    }
  }
}
