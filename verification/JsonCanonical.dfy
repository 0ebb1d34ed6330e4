// Sorting the keys and printing what remains: the canonical tree of a value, which depends on the
// value only up to key order.

module JsonCanonical {
  import opened Text
  import opened Sorting
  import opened JsonValue

  // ---- what the printer skips ----

  function StripFields(fs: seq<Field>): seq<Field> {
    if fs == [] then []
    else (if fs[0].value.Undef? then [] else [Field(fs[0].key, Strip(fs[0].value))]) + StripFields(fs[1..])
  }

  function StripItems(items: seq<Json>): (r: seq<Json>)
    ensures |r| == |items| && forall i :: 0 <= i < |items| ==> r[i] == Strip(items[i])
  {
    if items == [] then [] else [Strip(items[0])] + StripItems(items[1..])
  }

  /** `JSON.stringify` leaves out `undefined` fields and writes `undefined` array items as null. */
  function Strip(v: Json): Json {
    match v
    case Undef => Null
    case Arr(items) => Arr(StripItems(items))
    case Obj(fs) => Obj(StripFields(fs))
    case _ => v
  }

  /** The tree that is printed. */
  function Norm(v: Json): Json {
    Strip(SortKeys(v))
  }

  // ---- the fields of the printed tree ----

  function NormFields(fs: seq<Field>): seq<Field> {
    StripFields(Sort(SortedFields(fs), FieldLess))
  }

  lemma {:induction false} StripFieldsAre(fs: seq<Field>)
    requires DistinctKeys(fs) && Sorted(fs, FieldLess)
    ensures DistinctKeys(StripFields(fs)) && Sorted(StripFields(fs), FieldLess)
    ensures forall f :: f in StripFields(fs) <==>
              exists i :: 0 <= i < |fs| && !fs[i].value.Undef? && f == Field(fs[i].key, Strip(fs[i].value))
  {
    if fs != [] {
      StripFieldsAre(fs[1..]);
      var r, t := StripFields(fs), StripFields(fs[1..]);
      forall f
        ensures f in r
           <==> exists i :: 0 <= i < |fs| && !fs[i].value.Undef? && f == Field(fs[i].key, Strip(fs[i].value))
      {
        StripMember(fs, f);
      }
      StripAfter(fs, t);
    }
  }

  lemma StripMember(fs: seq<Field>, f: Field)
    requires fs != []
    requires f in StripFields(fs[1..]) <==>
              exists i :: 0 <= i < |fs[1..]| && !fs[1..][i].value.Undef?
                          && f == Field(fs[1..][i].key, Strip(fs[1..][i].value))
    ensures f in StripFields(fs)
       <==> exists i :: 0 <= i < |fs| && !fs[i].value.Undef? && f == Field(fs[i].key, Strip(fs[i].value))
  {
    if f in StripFields(fs[1..]) {
      var i :| 0 <= i < |fs[1..]| && !fs[1..][i].value.Undef? && f == Field(fs[1..][i].key, Strip(fs[1..][i].value));
      assert fs[i + 1] == fs[1..][i];
    }
    if i :| 0 <= i < |fs| && !fs[i].value.Undef? && f == Field(fs[i].key, Strip(fs[i].value)) {
      if i > 0 { assert fs[1..][i - 1] == fs[i]; }
    }
  }

  lemma StripAfter(fs: seq<Field>, t: seq<Field>)
    requires fs != [] && DistinctKeys(fs) && Sorted(fs, FieldLess)
    requires forall f :: f in t ==> exists i :: 0 <= i < |fs[1..]| && f.key == fs[1..][i].key
    ensures forall j :: 0 <= j < |t| ==> t[j].key != fs[0].key && !KeyLess(t[j].key, fs[0].key)
  {
    forall j | 0 <= j < |t| ensures t[j].key != fs[0].key && !KeyLess(t[j].key, fs[0].key) {
      assert t[j] in t;
      var i :| 0 <= i < |fs[1..]| && t[j].key == fs[1..][i].key;
      assert fs[1..][i] == fs[i + 1];
      assert !FieldLess(fs[i + 1], fs[0]);
    }
  }

  lemma SortedFieldsSorted(fs: seq<Field>)
    requires DistinctKeys(fs)
    ensures var s := Sort(SortedFields(fs), FieldLess);
            && DistinctKeys(s) && Sorted(s, FieldLess) && multiset(s) == multiset(SortedFields(fs))
            && (forall f :: f in s <==> f in SortedFields(fs))
  {
    var u := SortedFields(fs);
    var s := Sort(u, FieldLess);
    SortedFieldsAre(fs);
    FieldOrderIsWeak();
    SortSorts(u, FieldLess);
    SortPermutes(u, FieldLess);
    forall f ensures f in s <==> f in u { assert f in multiset(s) <==> f in multiset(u); }
    forall i, j | 0 <= i < j < |s| ensures s[i].key != s[j].key { DistinctAfterSort(u, s, i, j); }
  }

  lemma DistinctAfterSort(u: seq<Field>, s: seq<Field>, i: nat, j: nat)
    requires DistinctKeys(u) && multiset(s) == multiset(u) && i < j < |s|
    ensures s[i].key != s[j].key
  {
    if s[i].key == s[j].key {
      assert s[i] in multiset(u) && s[j] in multiset(u);
      assert s[i] == s[j];
      TwiceCountsTwo(s, i, j);
      DistinctCountsOne(u, s[i]);
    }
  }

  ghost predicate NormOf(f: Field, fs: seq<Field>, i: int) {
    0 <= i < |fs| && Kept(fs[i]) && f == Field(fs[i].key, Norm(fs[i].value))
  }

  lemma UndefStays(v: Json)
    ensures SortKeys(v).Undef? <==> v.Undef?
  {
  }

  lemma NormFieldsOrdered(fs: seq<Field>)
    requires DistinctKeys(fs)
    ensures DistinctKeys(NormFields(fs)) && Sorted(NormFields(fs), FieldLess)
  {
    SortedFieldsSorted(fs);
    StripFieldsAre(Sort(SortedFields(fs), FieldLess));
  }

  lemma NormFieldComesFrom(fs: seq<Field>, f: Field) returns (i: nat)
    requires DistinctKeys(fs) && f in NormFields(fs)
    ensures NormOf(f, fs, i)
  {
    var s := Sort(SortedFields(fs), FieldLess);
    SortedFieldsSorted(fs);
    StripFieldsAre(s);
    var j :| 0 <= j < |s| && !s[j].value.Undef? && f == Field(s[j].key, Strip(s[j].value));
    assert s[j] in SortedFields(fs);
    SortedFieldsAre(fs);
    i :| 0 <= i < |fs| && fs[i].key != PROTO && s[j] == Field(fs[i].key, SortKeys(fs[i].value));
    UndefStays(fs[i].value);
  }

  lemma NormFieldPresent(fs: seq<Field>, f: Field, i: nat)
    requires DistinctKeys(fs) && NormOf(f, fs, i)
    ensures f in NormFields(fs)
  {
    var s := Sort(SortedFields(fs), FieldLess);
    var g := Field(fs[i].key, SortKeys(fs[i].value));
    SortedFieldsAre(fs);
    SortedFieldsSorted(fs);
    assert g in s;
    var j :| 0 <= j < |s| && s[j] == g;
    UndefStays(fs[i].value);
    StripFieldsAre(s);
  }

  /** The printed fields are the kept ones, once each, in key order. */
  lemma NormFieldsAre(fs: seq<Field>)
    requires DistinctKeys(fs)
    ensures DistinctKeys(NormFields(fs)) && Sorted(NormFields(fs), FieldLess)
    ensures forall f :: f in NormFields(fs) <==> exists i :: NormOf(f, fs, i)
  {
    NormFieldsOrdered(fs);
    forall f ensures f in NormFields(fs) <==> exists i :: NormOf(f, fs, i) {
      if f in NormFields(fs) { var i := NormFieldComesFrom(fs, f); }
      if i :| NormOf(f, fs, i) { NormFieldPresent(fs, f, i); }
    }
  }

  // ---- the printed tree and the meaning determine each other ----

  lemma SortedUnique(a: seq<Field>, b: seq<Field>)
    requires DistinctKeys(a) && DistinctKeys(b) && Sorted(a, FieldLess) && Sorted(b, FieldLess)
    requires forall f :: f in a <==> f in b
    ensures a == b
  {
    forall f ensures multiset(a)[f] == multiset(b)[f] {
      DistinctCountsOne(a, f);
      DistinctCountsOne(b, f);
      assert f in a <==> f in b;
    }
    forall x, y | x in a && y in a && x != y ensures FieldLess(x, y) || FieldLess(y, x) { KeyLessTotal(x.key, y.key); }
    SortedIsUnique(a, b, FieldLess);
  }

  lemma {:induction false} NormFromMeaning(v: Json, w: Json)
    requires WellFormed(v) && WellFormed(w) && Meaning(v) == Meaning(w)
    ensures Norm(v) == Norm(w)
    decreases v
  {
    match v
    case Arr(items) =>
      forall i | 0 <= i < |items| ensures Norm(items[i]) == Norm(w.items[i]) {
        assert Meanings(items)[i] == Meanings(w.items)[i];
        NormFromMeaning(items[i], w.items[i]);
      }
      assert StripItems(SortedItems(items)) == StripItems(SortedItems(w.items));
    case Obj(fs) =>
      forall i, j | 0 <= i < |fs| && 0 <= j < |w.fields| && Meaning(fs[i].value) == Meaning(w.fields[j].value)
        ensures Norm(fs[i].value) == Norm(w.fields[j].value)
      {
        NormFromMeaning(fs[i].value, w.fields[j].value);
      }
      NormFieldsFromMeaning(fs, w.fields);
    case _ =>
  }

  ghost predicate Agree(a: seq<Field>, b: seq<Field>) {
    forall i, j :: 0 <= i < |a| && 0 <= j < |b| && Meaning(a[i].value) == Meaning(b[j].value)
      ==> Norm(a[i].value) == Norm(b[j].value)
  }

  lemma NormMembers(a: seq<Field>, b: seq<Field>, f: Field, i: int)
    requires DistinctKeys(a) && DistinctKeys(b) && FieldMeanings(a) == FieldMeanings(b) && Agree(a, b)
    requires NormOf(f, a, i)
    ensures exists j :: NormOf(f, b, j)
  {
    FieldMeaningsAre(a);
    FieldMeaningsAre(b);
    var k := a[i].key;
    assert k in FieldMeanings(b);
    var j :| 0 <= j < |b| && b[j].key == k && Kept(b[j]);
    assert Meaning(b[j].value) == FieldMeanings(b)[k] == Meaning(a[i].value);
    assert NormOf(f, b, j);
  }

  lemma NormFieldsFromMeaning(a: seq<Field>, b: seq<Field>)
    requires DistinctKeys(a) && DistinctKeys(b) && FieldMeanings(a) == FieldMeanings(b) && Agree(a, b)
    ensures NormFields(a) == NormFields(b)
  {
    NormFieldsAre(a);
    NormFieldsAre(b);
    assert Agree(b, a);
    forall f ensures f in NormFields(a) <==> f in NormFields(b) {
      if i :| NormOf(f, a, i) { NormMembers(a, b, f, i); }
      if i :| NormOf(f, b, i) { NormMembers(b, a, f, i); }
    }
    SortedUnique(NormFields(a), NormFields(b));
  }

  /** Canonicalising does not change the meaning. */
  lemma {:induction false} NormKeepsMeaning(v: Json)
    requires WellFormed(v)
    ensures Meaning(Norm(v)) == Meaning(v)
  {
    match v
    case Arr(items) =>
      forall i | 0 <= i < |items| ensures Meaning(Norm(items[i])) == Meaning(items[i]) { NormKeepsMeaning(items[i]); }
      assert Meanings(StripItems(SortedItems(items))) == Meanings(items);
    case Obj(fs) =>
      forall i | 0 <= i < |fs| ensures Meaning(Norm(fs[i].value)) == Meaning(fs[i].value) {
        NormKeepsMeaning(fs[i].value);
      }
      NormFieldsKeepMeaning(fs);
    case _ =>
  }

  lemma NormKept(fs: seq<Field>, f: Field)
    requires DistinctKeys(fs) && f in NormFields(fs)
    ensures Kept(f)
  {
    NormFieldsAre(fs);
    var i :| NormOf(f, fs, i);
    NormDefined(fs[i].value);
  }

  lemma NormDefined(v: Json)
    ensures !Norm(v).Undef?
  {
  }

  lemma NormHas(fs: seq<Field>, k: string)
    requires DistinctKeys(fs) && forall i :: 0 <= i < |fs| ==> Meaning(Norm(fs[i].value)) == Meaning(fs[i].value)
    requires k in FieldMeanings(fs)
    ensures k in FieldMeanings(NormFields(fs)) && FieldMeanings(NormFields(fs))[k] == FieldMeanings(fs)[k]
  {
    FieldMeaningsAre(fs);
    var i :| 0 <= i < |fs| && fs[i].key == k && Kept(fs[i]);
    var f := Field(fs[i].key, Norm(fs[i].value));
    NormFieldPresent(fs, f, i);
    NormKept(fs, f);
    NormFieldsOrdered(fs);
    FieldMeaningsAre(NormFields(fs));
    var j :| 0 <= j < |NormFields(fs)| && NormFields(fs)[j] == f;
  }

  lemma NormOnly(fs: seq<Field>, k: string)
    requires DistinctKeys(fs) && k in FieldMeanings(NormFields(fs))
    ensures k in FieldMeanings(fs)
  {
    var ns := NormFields(fs);
    NormFieldsOrdered(fs);
    FieldMeaningsAre(ns);
    var j :| 0 <= j < |ns| && ns[j].key == k && Kept(ns[j]);
    assert ns[j] in ns;
    var i := NormFieldComesFrom(fs, ns[j]);
    FieldMeaningsAre(fs);
  }

  lemma NormFieldsKeepMeaning(fs: seq<Field>)
    requires DistinctKeys(fs) && forall i :: 0 <= i < |fs| ==> Meaning(Norm(fs[i].value)) == Meaning(fs[i].value)
    ensures FieldMeanings(NormFields(fs)) == FieldMeanings(fs)
  {
    forall k | k in FieldMeanings(fs)
      ensures k in FieldMeanings(NormFields(fs)) && FieldMeanings(NormFields(fs))[k] == FieldMeanings(fs)[k]
    {
      NormHas(fs, k);
    }
    forall k | k in FieldMeanings(NormFields(fs)) ensures k in FieldMeanings(fs) { NormOnly(fs, k); }
    SameMap(FieldMeanings(NormFields(fs)), FieldMeanings(fs));
  }

  lemma SameMap(m: map<string, Value>, n: map<string, Value>)
    requires (forall k :: k in n ==> k in m && m[k] == n[k]) && forall k :: k in m ==> k in n
    ensures m == n
  {
  }

  /** Two values have the same canonical tree exactly when they are equal up to key order, dropped
      fields aside. */
  lemma NormIffMeaning(v: Json, w: Json)
    requires WellFormed(v) && WellFormed(w)
    ensures Norm(v) == Norm(w) <==> Meaning(v) == Meaning(w)
  {
    NormKeepsMeaning(v);
    NormKeepsMeaning(w);
    if Meaning(v) == Meaning(w) { NormFromMeaning(v, w); }
  }

  // ---- the shape of canonical trees ----

  /** None undefined, keys distinct and in order, numbers by the grammar. */
  predicate Printable(v: Json) {
    match v
    case Undef => false
    case Num(t) => NumberToken(t)
    case Arr(items) => forall i :: 0 <= i < |items| ==> Printable(items[i])
    case Obj(fs) => DistinctKeys(fs) && Sorted(fs, FieldLess) && forall i :: 0 <= i < |fs| ==> Printable(fs[i].value)
    case _ => true
  }

  lemma {:induction false} NormIsPrintable(v: Json)
    requires WellFormed(v)
    ensures Printable(Norm(v))
  {
    match v
    case Arr(items) =>
      forall i | 0 <= i < |items| ensures Printable(Norm(items[i])) { NormIsPrintable(items[i]); }
      assert forall i :: 0 <= i < |items| ==> StripItems(SortedItems(items))[i] == Norm(items[i]);
    case Obj(fs) =>
      forall i | 0 <= i < |fs| ensures Printable(Norm(fs[i].value)) { NormIsPrintable(fs[i].value); }
      NormFieldsAre(fs);
      var ns := NormFields(fs);
      forall j | 0 <= j < |ns| ensures Printable(ns[j].value) {
        assert ns[j] in ns;
        var i :| NormOf(ns[j], fs, i);
      }
    case _ =>
  }

  lemma {:induction false} PrintableIsWellFormed(v: Json)
    requires Printable(v)
    ensures WellFormed(v)
  {
    match v
    case Arr(items) =>
      forall i | 0 <= i < |items| ensures WellFormed(items[i]) { PrintableIsWellFormed(items[i]); }
    case Obj(fs) =>
      forall i | 0 <= i < |fs| ensures WellFormed(fs[i].value) { PrintableIsWellFormed(fs[i].value); }
    case _ =>
  }

  // ---- the loop ----

  function Keys(fs: seq<Field>): (r: seq<string>)
    ensures |r| == |fs| && forall i :: 0 <= i < |fs| ==> r[i] == fs[i].key
  {
    if fs == [] then [] else [fs[0].key] + Keys(fs[1..])
  }

  lemma {:induction false} GetFieldAt(fs: seq<Field>, i: nat)
    requires DistinctKeys(fs) && i < |fs|
    ensures GetField(fs, fs[i].key) == fs[i].value
  {
    if i > 0 { GetFieldAt(fs[1..], i - 1); }
  }

  /** What the loop has added for the first `n` of the keys. */
  ghost predicate Added(fs: seq<Field>, keys: seq<string>, n: nat, acc: seq<Field>)
    requires n <= |keys|
  {
    && DistinctKeys(acc) && Sorted(acc, FieldLess)
    && (forall f ::
          f in acc <==>
          exists j :: 0 <= j < n && keys[j] != PROTO && f == Field(keys[j], SortKeys(GetField(fs, keys[j]))))
  }

  lemma {:induction false} PutNew(acc: seq<Field>, k: string, v: Json)
    requires !HasKey(acc, k) && DistinctKeys(acc) && Sorted(acc, FieldLess)
    requires forall i :: 0 <= i < |acc| && !IsIndex(k) ==> IsIndex(acc[i].key) || TextLess(acc[i].key, k)
    ensures DistinctKeys(Put(acc, k, v)) && Sorted(Put(acc, k, v), FieldLess)
    ensures forall f :: f in Put(acc, k, v) <==> f in acc || f == Field(k, v)
  {
    var r := Put(acc, k, v);
    if acc != [] {
      assert acc[0].key != k;
      if IsIndex(k) && KeyLess(k, acc[0].key) {
        BeforeAll(acc, k, v);
      } else {
        NotBefore(acc[0].key, k);
        assert !HasKey(acc[1..], k) by { assert forall i :: 0 <= i < |acc[1..]| ==> acc[1..][i] == acc[i + 1]; }
        PutNew(acc[1..], k, v);
        assert acc == [acc[0]] + acc[1..];
        AfterHead(acc, k, v);
      }
    }
  }

  lemma BeforeAll(acc: seq<Field>, k: string, v: Json)
    requires acc != [] && Sorted(acc, FieldLess) && DistinctKeys(acc) && KeyLess(k, acc[0].key) && !HasKey(acc, k)
    ensures DistinctKeys([Field(k, v)] + acc) && Sorted([Field(k, v)] + acc, FieldLess)
  {
    var r := [Field(k, v)] + acc;
    KeyLessIrreflexive(k);
    forall i, j | 0 <= i < j < |r| ensures !FieldLess(r[j], r[i]) && r[i].key != r[j].key {
      if i == 0 && FieldLess(r[j], r[0]) {
        KeyLessTransitive(r[j].key, k, acc[0].key);
        if j == 1 { KeyLessIrreflexive(r[1].key); }
      }
    }
  }

  lemma AfterHead(acc: seq<Field>, k: string, v: Json)
    requires acc != [] && DistinctKeys(acc) && Sorted(acc, FieldLess) && acc[0].key != k && !KeyLess(k, acc[0].key)
    requires var t := Put(acc[1..], k, v);
             DistinctKeys(t) && Sorted(t, FieldLess) && forall f :: f in t <==> f in acc[1..] || f == Field(k, v)
    ensures var r := [acc[0]] + Put(acc[1..], k, v); DistinctKeys(r) && Sorted(r, FieldLess)
  {
    var t := Put(acc[1..], k, v);
    forall j | 0 <= j < |t| ensures !FieldLess(t[j], acc[0]) && t[j].key != acc[0].key {
      assert t[j] in t;
      if t[j] in acc[1..] {
        var i :| 0 <= i < |acc[1..]| && acc[1..][i] == t[j];
        assert acc[i + 1] == t[j];
      }
    }
  }

  lemma NotBefore(a: string, k: string)
    requires a != k && (IsIndex(k) ==> !KeyLess(k, a)) && (!IsIndex(k) ==> IsIndex(a) || TextLess(a, k))
    ensures !KeyLess(k, a)
  {
    if KeyLess(k, a) && !IsIndex(k) {
      TextLessTransitive(k, a, k);
      TextLessIrreflexive(k);
    }
  }

  lemma ByName(fs: seq<Field>)
    requires DistinctKeys(fs)
    ensures var keys := Sort(Keys(fs), TextLess);
            && (forall i, j :: 0 <= i < j < |keys| ==> TextLess(keys[i], keys[j]))
            && (forall k :: k in keys <==> HasKey(fs, k))
  {
    TextIsTotal();
    SortDistinct(Keys(fs), TextLess);
    SortPermutes(Keys(fs), TextLess);
    var keys := Sort(Keys(fs), TextLess);
    forall k ensures k in keys <==> HasKey(fs, k) { assert k in multiset(keys) <==> k in multiset(Keys(fs)); }
  }

  /** One assignment of the loop. */
  lemma AddNext(fs: seq<Field>, keys: seq<string>, n: nat, acc: seq<Field>)
    requires n < |keys| && Added(fs, keys, n, acc)
    requires forall i, j :: 0 <= i < j < |keys| ==> TextLess(keys[i], keys[j])
    ensures Added(fs, keys, n + 1, Assign(acc, keys[n], SortKeys(GetField(fs, keys[n]))))
  {
    var k, v := keys[n], SortKeys(GetField(fs, keys[n]));
    if k != PROTO {
      forall i | 0 <= i < |acc| ensures acc[i].key != k && TextLess(acc[i].key, k) {
        assert acc[i] in acc;
        var j :| 0 <= j < n && keys[j] != PROTO && acc[i] == Field(keys[j], SortKeys(GetField(fs, keys[j])));
        TextLessIrreflexive(k);
      }
      PutNew(acc, k, v);
    }
  }

  /** When all keys have been assigned, the object lists its fields in key order. */
  lemma AllAdded(fs: seq<Field>, keys: seq<string>, acc: seq<Field>)
    requires DistinctKeys(fs) && Added(fs, keys, |keys|, acc) && forall k :: k in keys <==> HasKey(fs, k)
    ensures acc == Sort(SortedFields(fs), FieldLess)
  {
    var s := Sort(SortedFields(fs), FieldLess);
    SortedFieldsSorted(fs);
    SortedFieldsAre(fs);
    forall f ensures f in acc <==> f in s {
      if j :| 0 <= j < |keys| && keys[j] != PROTO && f == Field(keys[j], SortKeys(GetField(fs, keys[j]))) {
        assert keys[j] in keys;
        var i :| 0 <= i < |fs| && fs[i].key == keys[j];
        GetFieldAt(fs, i);
      }
      if i :| 0 <= i < |fs| && fs[i].key != PROTO && f == Field(fs[i].key, SortKeys(fs[i].value)) {
        assert HasKey(fs, fs[i].key);
        var j :| 0 <= j < |keys| && keys[j] == fs[i].key;
        GetFieldAt(fs, i);
      }
    }
    SortedUnique(acc, s);
  }

  lemma FieldIsSmaller(v: Json, k: string)
    requires v.Obj? && HasKey(v.fields, k) && DistinctKeys(v.fields) && WellFormed(v)
    ensures exists i :: 0 <= i < |v.fields| && GetField(v.fields, k) == v.fields[i].value
    ensures WellFormed(GetField(v.fields, k))
  {
    var i :| 0 <= i < |v.fields| && v.fields[i].key == k;
    GetFieldAt(v.fields, i);
  }

  /** `sortKeys` as it is written: a fresh object filled key by key. */
  method SortKeysLoop(v: Json) returns (r: Json)
    requires WellFormed(v)
    ensures r == SortKeys(v)
    decreases v
  {
    match v
    case Arr(items) =>
      var sorted: seq<Json> := [];
      for i := 0 to |items|
        invariant |sorted| == i && forall j :: 0 <= j < i ==> sorted[j] == SortKeys(items[j])
      {
        var x := SortKeysLoop(items[i]);
        sorted := sorted + [x];
      }
      assert sorted == SortedItems(items);
      return Arr(sorted);
    case Obj(fs) =>
      var keys := Sort(Keys(fs), TextLess);
      ByName(fs);
      var sorted: seq<Field> := [];
      for n := 0 to |keys|
        invariant Added(fs, keys, n, sorted)
      {
        assert keys[n] in keys;
        FieldIsSmaller(v, keys[n]);
        var x := SortKeysLoop(GetField(fs, keys[n]));
        AddNext(fs, keys, n, sorted);
        sorted := Assign(sorted, keys[n], x);
      }
      AllAdded(fs, keys, sorted);
      return Obj(sorted);
    case _ =>
      return v;
  }
}
