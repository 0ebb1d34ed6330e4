// The integrity block of the generated registries: written by the compiler, checked by the runtime
// after the file has been printed, stored and read back. SHA-256 is a parameter `h`.

module Integrity {
  import opened Options
  import opened Text
  import opened Sorting
  import opened JsonValue
  import opened JsonCanonical
  import opened JsonText

  const INTEGRITY: string := "integrity"

  /** `{ algorithm, hash, generated_by: { compiler_version }, timestamp }` */
  function Block(hash: string, version: string, timestamp: string): Json {
    Obj([Field("algorithm", Str("SHA256")),
         Field("hash", Str(hash)),
         Field("generated_by", Obj([Field("compiler_version", Str(version))])),
         Field("timestamp", Str(timestamp))])
  }

  /** The hashed text: the canonical form of the registry without its integrity block. */
  function PayloadText(fs: seq<Field>): string {
    var c := Canonical(Obj(Delete(fs, INTEGRITY)));
    if c.Some? then c.value else ""
  }

  /** `withIntegrity`, on the registry object with fields `fs`. */
  function WithIntegrity(fs: seq<Field>, version: string, timestamp: string, h: string -> string): Json {
    Obj(Put(fs, INTEGRITY, Block(h(PayloadText(fs)), version, timestamp)))
  }

  /** The generated file: canonical text and a final line end. */
  function FileContent(fs: seq<Field>, version: string, timestamp: string, h: string -> string): Option<string> {
    var c := Canonical(WithIntegrity(fs, version, timestamp, h));
    if c.Some? then Some(c.value + "\n") else None
  }

  datatype VerifyResult = VerifyResult(verified: bool, expected: Json, actual: string)

  /** `IntegrityValidator.verify` */
  function Verify(registry: Json, h: string -> string): VerifyResult {
    var integrity := Get(registry, INTEGRITY);
    if Falsy(integrity) || Falsy(Get(integrity, "hash")) then VerifyResult(false, Str("missing"), "missing")
    else
      var expected := Get(integrity, "hash");
      var actual := h(PayloadText(registry.fields));
      VerifyResult(expected == Str(actual), expected, actual)
  }

  // ---- deleting and adding a field, seen through the meaning ----

  lemma {:induction false} DeleteIs(fs: seq<Field>, k: string)
    requires DistinctKeys(fs)
    ensures DistinctKeys(Delete(fs, k)) && !HasKey(Delete(fs, k), k)
    ensures forall f :: f in Delete(fs, k) <==> f in fs && f.key != k
  {
    if fs != [] {
      DeleteIs(fs[1..], k);
      assert fs == [fs[0]] + fs[1..];
      var t := Delete(fs[1..], k);
      forall j | 0 <= j < |t| ensures t[j].key != fs[0].key && t[j].key != k {
        assert t[j] in t;
        assert t[j] in fs[1..];
      }
    }
  }

  lemma {:induction false} DeleteWellFormed(fs: seq<Field>, k: string)
    requires DistinctKeys(fs) && forall i :: 0 <= i < |fs| ==> WellFormed(fs[i].value)
    ensures WellFormed(Obj(Delete(fs, k)))
  {
    DeleteIs(fs, k);
    var d := Delete(fs, k);
    forall i | 0 <= i < |d| ensures WellFormed(d[i].value) { assert d[i] in d; }
  }

  lemma {:induction false} DeleteMeaning(fs: seq<Field>, k: string)
    requires DistinctKeys(fs)
    ensures FieldMeanings(Delete(fs, k)) == FieldMeanings(fs) - {k}
  {
    if fs != [] {
      DeleteMeaning(fs[1..], k);
      var d := Delete(fs[1..], k);
      AbsentKey(fs);
      if fs[0].key == k {
        assert Delete(fs, k) == d;
      } else {
        assert Delete(fs, k) == [fs[0]] + d && Delete(fs, k)[1..] == d;
      }
    }
  }

  lemma PutWellFormed(fs: seq<Field>, k: string, v: Json)
    requires DistinctKeys(fs) && (forall i :: 0 <= i < |fs| ==> WellFormed(fs[i].value)) && WellFormed(v) && !IsIndex(k)
    ensures WellFormed(Obj(Put(fs, k, v)))
  {
    PutIs(fs, k, v);
    var p := Put(fs, k, v);
    forall i | 0 <= i < |p| ensures WellFormed(p[i].value) { assert p[i] in p; }
  }

  // ---- the round trip ----

  lemma IntegrityName()
    ensures INTEGRITY != PROTO && !IsIndex(INTEGRITY)
  {
    assert INTEGRITY[0] == 'i';
  }

  lemma BlockKeys(hash: string, version: string, timestamp: string)
    ensures DistinctKeys(Block(hash, version, timestamp).fields)
  {
    var fs := Block(hash, version, timestamp).fields;
    assert fs[0].key[0] == 'a' && fs[1].key[0] == 'h' && fs[2].key[0] == 'g' && fs[3].key[0] == 't';
  }

  lemma BlockIsWellFormed(hash: string, version: string, timestamp: string)
    ensures WellFormed(Block(hash, version, timestamp))
  {
    var fs := Block(hash, version, timestamp).fields;
    BlockKeys(hash, version, timestamp);
    assert DistinctKeys(fs[2].value.fields);
  }

  lemma BlockIs(hash: string, version: string, timestamp: string)
    ensures WellFormed(Block(hash, version, timestamp))
    ensures Meaning(Block(hash, version, timestamp)).VObj?
    ensures "hash" in Meaning(Block(hash, version, timestamp)).fields
    ensures Meaning(Block(hash, version, timestamp)).fields["hash"] == VStr(hash)
  {
    var fs := Block(hash, version, timestamp).fields;
    BlockIsWellFormed(hash, version, timestamp);
    BlockKeys(hash, version, timestamp);
    assert "hash"[0] == 'h' && PROTO[0] == '_';
    FieldMeaningsAre(fs);
    assert Kept(fs[1]);
  }

  /** What the runtime reads from the generated file, up to key order. */
  lemma LoadedMeaning(fs: seq<Field>, version: string, timestamp: string, h: string -> string) returns (loaded: Json)
    requires WellFormed(Obj(fs))
    ensures FileContent(fs, version, timestamp, h).Some?
    ensures ReadJson(FileContent(fs, version, timestamp, h).value) == Some(loaded)
    ensures WellFormed(loaded) && loaded.Obj?
    ensures FieldMeanings(loaded.fields)
         == FieldMeanings(fs)[INTEGRITY := Meaning(Block(h(PayloadText(fs)), version, timestamp))]
  {
    var block := Block(h(PayloadText(fs)), version, timestamp);
    var w := WithIntegrity(fs, version, timestamp, h);
    BlockIs(h(PayloadText(fs)), version, timestamp);
    IntegrityName();
    PutWellFormed(fs, INTEGRITY, block);
    PutMeaning(fs, INTEGRITY, block);
    CanonicalIs(w);
    loaded := Norm(w);
    TextRoundTrip(loaded);
    PrintableIsWellFormed(loaded);
    NormKeepsMeaning(w);
  }

  lemma SamePayload(a: seq<Field>, b: seq<Field>)
    requires WellFormed(Obj(a)) && WellFormed(Obj(b))
    ensures PayloadText(a) == PayloadText(b) <==> FieldMeanings(a) - {INTEGRITY} == FieldMeanings(b) - {INTEGRITY}
  {
    DeleteMeaning(a, INTEGRITY);
    DeleteMeaning(b, INTEGRITY);
    DeleteWellFormed(a, INTEGRITY);
    DeleteWellFormed(b, INTEGRITY);
    CanonicalIs(Obj(Delete(a, INTEGRITY)));
    CanonicalIs(Obj(Delete(b, INTEGRITY)));
    CanonicalIffSameMeaning(Obj(Delete(a, INTEGRITY)), Obj(Delete(b, INTEGRITY)));
  }

  /** Every registry, printed with its integrity block, read back and verified, is reported verified:
      whatever fields are undefined, and whatever block it carried before. */
  lemma IntegrityRoundTrip(fs: seq<Field>, version: string, timestamp: string, h: string -> string)
    requires WellFormed(Obj(fs)) && h(PayloadText(fs)) != ""
    ensures FileContent(fs, version, timestamp, h).Some?
    ensures ReadJson(FileContent(fs, version, timestamp, h).value).Some?
    ensures Verify(ReadJson(FileContent(fs, version, timestamp, h).value).value, h)
         == VerifyResult(true, Str(h(PayloadText(fs))), h(PayloadText(fs)))
  {
    var hash := h(PayloadText(fs));
    var loaded := LoadedMeaning(fs, version, timestamp, h);
    var m := FieldMeanings(loaded.fields);
    BlockIs(hash, version, timestamp);
    IntegrityName();
    StoredHash(loaded, Block(hash, version, timestamp), hash);
    assert m - {INTEGRITY} == FieldMeanings(fs) - {INTEGRITY};
    SamePayload(loaded.fields, fs);
  }

  lemma StoredHash(loaded: Json, block: Json, hash: string)
    requires WellFormed(loaded) && loaded.Obj? && INTEGRITY in FieldMeanings(loaded.fields)
    requires FieldMeanings(loaded.fields)[INTEGRITY] == Meaning(block) && Meaning(block).VObj?
    requires "hash" in Meaning(block).fields && Meaning(block).fields["hash"] == VStr(hash)
    ensures var integrity := Get(loaded, INTEGRITY); integrity.Obj? && Get(integrity, "hash") == Str(hash)
  {
    IntegrityName();
    GetMeaning(loaded.fields, INTEGRITY);
    var integrity := GetField(loaded.fields, INTEGRITY);
    FieldWellFormed(loaded.fields, INTEGRITY);
    assert "hash"[0] == 'h' && PROTO[0] == '_';
    GetMeaning(integrity.fields, "hash");
  }

  lemma {:induction false} FieldWellFormed(fs: seq<Field>, k: string)
    requires DistinctKeys(fs) && (forall i :: 0 <= i < |fs| ==> WellFormed(fs[i].value))
    ensures WellFormed(GetField(fs, k))
  {
    if fs != [] && fs[0].key != k { FieldWellFormed(fs[1..], k); }
  }

  /** If two registries verify against the same stored hash, and the hash has no collision on their two
      payload texts, they carry the same payload up to key order. */
  lemma VerifiedHashBinds(p: Json, q: Json, h: string -> string)
    requires WellFormed(p) && WellFormed(q) && p.Obj? && q.Obj?
    requires Verify(p, h).verified && Verify(q, h).verified && Verify(p, h).expected == Verify(q, h).expected
    requires h(PayloadText(p.fields)) == h(PayloadText(q.fields)) ==> PayloadText(p.fields) == PayloadText(q.fields)
    ensures FieldMeanings(p.fields) - {INTEGRITY} == FieldMeanings(q.fields) - {INTEGRITY}
  {
    SamePayload(p.fields, q.fields);
  }

  /** A changed payload is reported, unless the change is one of key order only. */
  lemma TamperingIsReported(p: Json, q: Json, h: string -> string)
    requires WellFormed(p) && WellFormed(q) && p.Obj? && q.Obj? && Verify(p, h).verified
    requires Get(p, INTEGRITY) == Get(q, INTEGRITY)
    requires h(PayloadText(p.fields)) == h(PayloadText(q.fields)) ==> PayloadText(p.fields) == PayloadText(q.fields)
    ensures Verify(q, h).verified <==> FieldMeanings(p.fields) - {INTEGRITY} == FieldMeanings(q.fields) - {INTEGRITY}
  {
    SamePayload(p.fields, q.fields);
  }
}
