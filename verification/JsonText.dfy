// The printer of `JSON.stringify(value, null, 2)` and the reader of `JSON.parse`, and the proof that
// reading what was printed gives the printed tree back.

module JsonText {
  import opened Options
  import opened Text
  import opened Sorting
  import opened JsonValue
  import opened JsonCanonical

  // ---- printing ----

  function HexDigit(n: nat): char
    requires n < 16
  {
    if n < 10 then ('0' as int + n) as char else ('a' as int + (n - 10)) as char
  }

  /** Section 7 of RFC 8259, with the short escapes where there are any. */
  function Escape(c: char): string {
    if c == '"' then "\\\""
    else if c == '\\' then "\\\\"
    else if c == '\U{8}' then "\\b"
    else if c == '\U{C}' then "\\f"
    else if c == '\n' then "\\n"
    else if c == '\r' then "\\r"
    else if c == '\t' then "\\t"
    else if c < ' ' then "\\u00" + [HexDigit(c as int / 16), HexDigit(c as int % 16)]
    else [c]
  }

  function EscapeAll(s: string): string {
    if s == "" then "" else Escape(s[0]) + EscapeAll(s[1..])
  }

  function Quote(s: string): string {
    "\"" + (EscapeAll(s) + "\"")
  }

  function Break(ind: string): string {
    "\n" + ind
  }

  function Print(v: Json, ind: string): string {
    match v
    case Undef => "null"
    case Null => "null"
    case Bool(b) => if b then "true" else "false"
    case Num(t) => t
    case Str(s) => Quote(s)
    case Arr(items) =>
      if items == [] then "[]"
      else "[" + (Break(ind + "  ") + (PrintItems(items, ind + "  ") + (Break(ind) + "]")))
    case Obj(fs) =>
      if fs == [] then "{}"
      else "{" + (Break(ind + "  ") + (PrintFields(fs, ind + "  ") + (Break(ind) + "}")))
  }

  function PrintItems(items: seq<Json>, ind: string): string
    requires items != []
  {
    Print(items[0], ind) + (if |items| == 1 then "" else "," + (Break(ind) + PrintItems(items[1..], ind)))
  }

  function PrintField(f: Field, ind: string): string {
    Quote(f.key) + (": " + Print(f.value, ind))
  }

  function PrintFields(fs: seq<Field>, ind: string): string
    requires fs != []
  {
    PrintField(fs[0], ind) + (if |fs| == 1 then "" else "," + (Break(ind) + PrintFields(fs[1..], ind)))
  }

  // ---- reading ----

  datatype Parse<+T> = Fail | Done(value: T, rest: string)

  predicate Blank(c: char) {
    c == ' ' || c == '\t' || c == '\n' || c == '\r'
  }

  function SkipBlanks(s: string): (r: string)
    ensures |r| <= |s|
  {
    if s != "" && Blank(s[0]) then SkipBlanks(s[1..]) else s
  }

  function Prepend(c: char, r: Parse<string>): Parse<string> {
    if r.Fail? then Fail else Done([c] + r.value, r.rest)
  }

  predicate IsHex(c: char) {
    '0' <= c <= '9' || 'a' <= c <= 'f' || 'A' <= c <= 'F'
  }

  function HexValue(c: char): (n: nat)
    requires IsHex(c)
    ensures n < 16
  {
    if c <= '9' then c as int - '0' as int
    else if c <= 'F' then c as int - 'A' as int + 10
    else c as int - 'a' as int + 10
  }

  /** The character of a short escape. */
  function ShortEscape(c: char): string {
    if c == '"' || c == '\\' || c == '/' then [c]
    else if c == 'b' then ['\U{8}']
    else if c == 'f' then ['\U{C}']
    else if c == 'n' then ['\n']
    else if c == 'r' then ['\r']
    else if c == 't' then ['\t']
    else ""
  }

  /** The body of a string, up to and with the closing quote. Escaped surrogates are not modelled. */
  function ReadString(s: string): (r: Parse<string>)
    ensures r.Done? ==> |r.rest| < |s|
    decreases |s|
  {
    if s == "" then Fail
    else if s[0] == '"' then Done("", s[1..])
    else if s[0] == '\\' then
      if |s| >= 2 && ShortEscape(s[1]) != "" then Prepend(ShortEscape(s[1])[0], ReadString(s[2..]))
      else if |s| >= 6 && s[1] == 'u' && IsHex(s[2]) && IsHex(s[3]) && IsHex(s[4]) && IsHex(s[5]) then
        var code := HexValue(s[2]) * 4096 + HexValue(s[3]) * 256 + HexValue(s[4]) * 16 + HexValue(s[5]);
        if 0xD800 <= code < 0xE000 then Fail else Prepend(code as char, ReadString(s[6..]))
      else Fail
    else if s[0] < ' ' then Fail
    else Prepend(s[0], ReadString(s[1..]))
  }

  predicate NumberChar(c: char) {
    IsDigit(c) || c == '-' || c == '+' || c == '.' || c == 'e' || c == 'E'
  }

  function NumberRun(s: string): (n: nat)
    ensures n <= |s|
  {
    if s != "" && NumberChar(s[0]) then 1 + NumberRun(s[1..]) else 0
  }

  function ReadNumber(s: string): (r: Parse<Json>)
    ensures r.Done? ==> |r.rest| < |s|
  {
    var n := NumberRun(s);
    if n > 0 && NumberToken(s[..n]) then Done(Num(s[..n]), s[n..]) else Fail
  }

  function ReadValue(s: string): (r: Parse<Json>)
    ensures r.Done? ==> |r.rest| < |s|
    decreases |s|, 0
  {
    var u := SkipBlanks(s);
    if u == "" then Fail
    else if StartsWith(u, "null") then Done(Null, u[4..])
    else if StartsWith(u, "true") then Done(Bool(true), u[4..])
    else if StartsWith(u, "false") then Done(Bool(false), u[5..])
    else if u[0] == '"' then
      var r := ReadString(u[1..]);
      if r.Fail? then Fail else Done(Str(r.value), r.rest)
    else if u[0] == '[' then
      var w := SkipBlanks(u[1..]);
      if w != "" && w[0] == ']' then Done(Arr([]), w[1..])
      else
        var r := ReadItems(w);
        if r.Fail? then Fail else Done(Arr(r.value), r.rest)
    else if u[0] == '{' then
      var w := SkipBlanks(u[1..]);
      if w != "" && w[0] == '}' then Done(Obj([]), w[1..])
      else
        var r := ReadFields(w);
        if r.Fail? then Fail else Done(Obj(PutAll([], r.value)), r.rest)
    else ReadNumber(u)
  }

  function ReadItems(s: string): (r: Parse<seq<Json>>)
    ensures r.Done? ==> |r.rest| < |s|
    decreases |s|, 1
  {
    var first := ReadValue(s);
    if first.Fail? then Fail
    else
      var u := SkipBlanks(first.rest);
      if u != "" && u[0] == ']' then Done([first.value], u[1..])
      else if u != "" && u[0] == ',' then
        var rest := ReadItems(u[1..]);
        if rest.Fail? then Fail else Done([first.value] + rest.value, rest.rest)
      else Fail
  }

  function ReadField(s: string): (r: Parse<Field>)
    ensures r.Done? ==> |r.rest| < |s|
    decreases |s|, 1
  {
    var u := SkipBlanks(s);
    if u == "" || u[0] != '"' then Fail
    else
      var key := ReadString(u[1..]);
      if key.Fail? then Fail
      else
        var w := SkipBlanks(key.rest);
        if w == "" || w[0] != ':' then Fail
        else
          var value := ReadValue(w[1..]);
          if value.Fail? then Fail else Done(Field(key.value, value.value), value.rest)
  }

  function ReadFields(s: string): (r: Parse<seq<Field>>)
    ensures r.Done? ==> |r.rest| < |s|
    decreases |s|, 2
  {
    var first := ReadField(s);
    if first.Fail? then Fail
    else
      var u := SkipBlanks(first.rest);
      if u != "" && u[0] == '}' then Done([first.value], u[1..])
      else if u != "" && u[0] == ',' then
        var rest := ReadFields(u[1..]);
        if rest.Fail? then Fail else Done([first.value] + rest.value, rest.rest)
      else Fail
  }

  /** Properties are created in the order of the text, a repeated name overwriting. */
  function PutAll(acc: seq<Field>, fs: seq<Field>): seq<Field>
    decreases fs
  {
    if fs == [] then acc else PutAll(Put(acc, fs[0].key, fs[0].value), fs[1..])
  }

  /** `JSON.parse`: one value and nothing after it. */
  function ReadJson(s: string): Option<Json> {
    var r := ReadValue(s);
    if r.Done? && SkipBlanks(r.rest) == "" then Some(r.value) else None
  }

  // ---- strings ----

  lemma HexOfDigit(n: nat)
    requires n < 16
    ensures IsHex(HexDigit(n)) && HexValue(HexDigit(n)) == n
  {
  }

  lemma ControlStep(c: char, u: string)
    requires c < ' '
    ensures ReadString(("\\u00" + [HexDigit(c as int / 16), HexDigit(c as int % 16)]) + u) == Prepend(c, ReadString(u))
  {
    var s := ("\\u00" + [HexDigit(c as int / 16), HexDigit(c as int % 16)]) + u;
    HexOfDigit(c as int / 16);
    HexOfDigit(c as int % 16);
    assert s[6..] == u;
    assert s[0] == '\\' && s[1] == 'u' && s[2] == '0' && s[3] == '0';
    assert s[4] == HexDigit(c as int / 16) && s[5] == HexDigit(c as int % 16);
  }

  lemma ShortTable(c: char)
    requires c == '"' || c == '\\' || c == '\U{8}' || c == '\U{C}' || c == '\n' || c == '\r' || c == '\t'
    ensures |Escape(c)| == 2 && Escape(c)[0] == '\\' && ShortEscape(Escape(c)[1]) == [c]
  {
  }

  lemma ShortStep(x: string, c: char, u: string)
    requires |x| == 2 && x[0] == '\\' && ShortEscape(x[1]) == [c]
    ensures ReadString(x + u) == Prepend(c, ReadString(u))
  {
    assert (x + u)[2..] == u && (x + u)[0] == x[0] && (x + u)[1] == x[1];
  }

  lemma PlainStep(c: char, u: string)
    requires c != '"' && c != '\\' && c >= ' '
    ensures ReadString([c] + u) == Prepend(c, ReadString(u))
  {
    assert ([c] + u)[1..] == u;
  }

  lemma EscapeStep(c: char, u: string)
    ensures ReadString(Escape(c) + u) == Prepend(c, ReadString(u))
  {
    if c == '"' || c == '\\' || c == '\U{8}' || c == '\U{C}' || c == '\n' || c == '\r' || c == '\t' {
      ShortTable(c);
      ShortStep(Escape(c), c, u);
    } else if c < ' ' {
      ControlStep(c, u);
    } else {
      PlainStep(c, u);
    }
  }

  /** Reading the escaped text gives the text. */
  lemma {:induction false} StringRoundTrip(x: string, t: string)
    ensures ReadString(EscapeAll(x) + ("\"" + t)) == Done(x, t)
  {
    if x == "" {
      EmptyString(t);
    } else {
      var u := EscapeAll(x[1..]) + ("\"" + t);
      StringRoundTrip(x[1..], t);
      EscapeStep(x[0], u);
      EscapeText(x, "\"" + t);
      assert [x[0]] + x[1..] == x;
    }
  }

  lemma EmptyString(t: string)
    ensures ReadString("" + ("\"" + t)) == Done("", t)
  {
    assert "" + ("\"" + t) == "\"" + t;
    assert ("\"" + t)[1..] == t;
  }

  lemma EscapeText(x: string, u: string)
    requires x != ""
    ensures EscapeAll(x) + u == Escape(x[0]) + (EscapeAll(x[1..]) + u)
  {
  }

  lemma QuoteShape(body: string, t: string)
    ensures ("\"" + (body + "\"")) + t == "\"" + (body + ("\"" + t))
    ensures ("\"" + body + "\"") + t == "\"" + (body + ("\"" + t))
    ensures ("\"" + (body + ("\"" + t)))[1..] == body + ("\"" + t)
  {
  }

  lemma QuoteRoundTrip(x: string, t: string)
    ensures Quote(x) + t == "\"" + (EscapeAll(x) + ("\"" + t))
    ensures (Quote(x) + t)[1..] == EscapeAll(x) + ("\"" + t)
    ensures ReadString((Quote(x) + t)[1..]) == Done(x, t)
  {
    QuoteShape(EscapeAll(x), t);
    StringRoundTrip(x, t);
  }

  // ---- numbers ----

  predicate Delimited(t: string) {
    t == "" || !NumberChar(t[0])
  }

  lemma {:induction false} RunStops(x: string, t: string)
    requires (forall i :: 0 <= i < |x| ==> NumberChar(x[i])) && Delimited(t)
    ensures NumberRun(x + t) == |x|
  {
    if x == "" {
      assert x + t == t;
    } else {
      assert (x + t)[1..] == x[1..] + t;
      RunStops(x[1..], t);
    }
  }

  lemma ExponentChars(s: string)
    requires Exponent(s)
    ensures forall i :: 0 <= i < |s| ==> NumberChar(s[i])
  {
    if s != "" {
      var n := if |s| > 1 && (s[1] == '+' || s[1] == '-') then 2 else 1;
      assert forall i :: n <= i < |s| ==> s[i] == s[n..][i - n];
    }
  }

  lemma FractionChars(s: string)
    requires Fraction(s)
    ensures forall i :: 0 <= i < |s| ==> NumberChar(s[i])
  {
    if s != "" && s[0] == '.' {
      var a := s[1..];
      ExponentChars(a[DigitRun(a)..]);
      CharsOfBoth(a, DigitRun(a));
      assert forall i :: 1 <= i < |s| ==> s[i] == a[i - 1];
    } else {
      ExponentChars(s);
    }
  }

  lemma UnsignedChars(a: string)
    requires var n := DigitRun(a); n > 0 && Fraction(a[n..])
    ensures a != "" && IsDigit(a[0]) && forall i :: 0 <= i < |a| ==> NumberChar(a[i])
  {
    FractionChars(a[DigitRun(a)..]);
    CharsOfBoth(a, DigitRun(a));
  }

  lemma CharsOfBoth(a: string, n: nat)
    requires n <= |a| && forall i :: 0 <= i < n ==> IsDigit(a[i])
    requires forall i :: 0 <= i < |a[n..]| ==> NumberChar(a[n..][i])
    ensures forall i :: 0 <= i < |a| ==> NumberChar(a[i])
  {
    forall i | n <= i < |a| ensures NumberChar(a[i]) { assert a[i] == a[n..][i - n]; }
  }

  lemma NumberChars(s: string)
    requires NumberToken(s)
    ensures s != "" && (s[0] == '-' || IsDigit(s[0])) && forall i :: 0 <= i < |s| ==> NumberChar(s[i])
  {
    if s != "" && s[0] == '-' {
      UnsignedChars(s[1..]);
      assert forall i :: 0 < i < |s| ==> s[i] == s[1..][i - 1];
    } else {
      UnsignedChars(s);
    }
  }

  lemma NumberRoundTrip(x: string, t: string)
    requires NumberToken(x) && Delimited(t)
    ensures ReadNumber(x + t) == Done(Num(x), t)
  {
    NumberChars(x);
    RunStops(x, t);
    assert (x + t)[..|x|] == x && (x + t)[|x|..] == t;
  }

  // ---- white space ----

  predicate AllBlank(ind: string) {
    forall i :: 0 <= i < |ind| ==> Blank(ind[i])
  }

  lemma {:induction false} SkipAll(ind: string, x: string)
    requires AllBlank(ind)
    ensures SkipBlanks(ind + x) == SkipBlanks(x)
  {
    if ind == "" {
      assert ind + x == x;
    } else {
      assert (ind + x)[1..] == ind[1..] + x;
      SkipAll(ind[1..], x);
    }
  }

  lemma BreakIsBlank(ind: string)
    requires AllBlank(ind)
    ensures AllBlank(Break(ind)) && AllBlank(ind + "  ")
  {
  }

  lemma BlanksDoNotMatter(s: string, u: string)
    requires SkipBlanks(s) == SkipBlanks(u)
    ensures ReadValue(s) == ReadValue(u) && ReadItems(s) == ReadItems(u)
    ensures ReadField(s) == ReadField(u) && ReadFields(s) == ReadFields(u)
  {
  }

  /** How a printed value starts. */
  lemma PrintHead(v: Json, ind: string)
    requires Printable(v)
    ensures Print(v, ind) != "" && !Blank(Print(v, ind)[0]) && Print(v, ind)[0] != ']' && Print(v, ind)[0] != '}'
  {
    match v
    case Num(t) => NumberChars(t);
    case _ =>
  }

  lemma SkipHead(s: string)
    requires s != "" && !Blank(s[0])
    ensures SkipBlanks(s) == s
  {
  }

  // ---- values without parts ----

  lemma WordRoundTrip(w: string, t: string)
    requires w == "null" || w == "true" || w == "false"
    ensures ReadValue(w + t) == Done(if w == "null" then Null else Bool(w == "true"), t)
  {
    var s := w + t;
    SkipHead(s);
    assert s[..|w|] == w && s[|w|..] == t;
    assert s[0] == w[0];
    if StartsWith(s, "null") { HeadOfPrefix(s, "null"); }
    if StartsWith(s, "true") { HeadOfPrefix(s, "true"); }
  }

  lemma NoWord(s: string)
    requires s != "" && !Blank(s[0]) && s[0] != 'n' && s[0] != 't' && s[0] != 'f'
    ensures SkipBlanks(s) == s && !StartsWith(s, "null") && !StartsWith(s, "true") && !StartsWith(s, "false")
  {
    if StartsWith(s, "null") { HeadOfPrefix(s, "null"); }
    if StartsWith(s, "true") { HeadOfPrefix(s, "true"); }
    if StartsWith(s, "false") { HeadOfPrefix(s, "false"); }
  }

  lemma ReadQuoted(x: string, t: string)
    ensures ReadValue(Quote(x) + t) == Done(Str(x), t)
  {
    QuoteRoundTrip(x, t);
    NoWord(Quote(x) + t);
  }

  lemma ReadNumeric(x: string, t: string)
    requires NumberToken(x) && Delimited(t)
    ensures ReadValue(x + t) == Done(Num(x), t)
  {
    NumberChars(x);
    assert (x + t)[0] == x[0];
    NoWord(x + t);
    NumberRoundTrip(x, t);
  }

  lemma ReadArray(body: string, ind: string, t: string, items: seq<Json>)
    requires AllBlank(ind) && body != "" && !Blank(body[0]) && body[0] != ']'
    requires ReadItems(body + (Break(ind) + ("]" + t))) == Done(items, t)
    ensures ReadValue(("[" + (Break(ind + "  ") + (body + (Break(ind) + "]")))) + t) == Done(Arr(items), t)
  {
    var u := body + (Break(ind) + ("]" + t));
    var s := ("[" + (Break(ind + "  ") + (body + (Break(ind) + "]")))) + t;
    assert s == "[" + (Break(ind + "  ") + u) by { BracketText(Break(ind + "  "), body, Break(ind), "]", t); }
    assert s[1..] == Break(ind + "  ") + u;
    BreakIsBlank(ind);
    BreakIsBlank(ind + "  ");
    SkipAll(Break(ind + "  "), u);
    assert u[0] == body[0];
    SkipHead(u);
    NoWord(s);
  }

  lemma ReadObject(body: string, ind: string, t: string, fs: seq<Field>)
    requires AllBlank(ind) && body != "" && !Blank(body[0]) && body[0] != '}'
    requires ReadFields(body + (Break(ind) + ("}" + t))) == Done(fs, t)
    ensures ReadValue(("{" + (Break(ind + "  ") + (body + (Break(ind) + "}")))) + t) == Done(Obj(PutAll([], fs)), t)
  {
    var u := body + (Break(ind) + ("}" + t));
    var s := ("{" + (Break(ind + "  ") + (body + (Break(ind) + "}")))) + t;
    assert s == "{" + (Break(ind + "  ") + u) by { BraceText(Break(ind + "  "), body, Break(ind), t); }
    assert s[1..] == Break(ind + "  ") + u;
    BreakIsBlank(ind);
    BreakIsBlank(ind + "  ");
    SkipAll(Break(ind + "  "), u);
    assert u[0] == body[0];
    SkipHead(u);
    NoWord(s);
  }

  lemma BracketText(a: string, body: string, b: string, close: string, t: string)
    ensures ("[" + (a + (body + (b + close)))) + t == "[" + (a + (body + (b + (close + t))))
  {
  }

  lemma BraceText(a: string, body: string, b: string, t: string)
    ensures ("{" + (a + (body + (b + "}")))) + t == "{" + (a + (body + (b + ("}" + t))))
  {
  }

  // ---- lists ----

  lemma LastItem(v: Json, x: string, ind: string, t: string)
    requires AllBlank(ind) && ReadValue(x + (Break(ind) + ("]" + t))) == Done(v, Break(ind) + ("]" + t))
    ensures ReadItems(x + (Break(ind) + ("]" + t))) == Done([v], t)
  {
    BreakIsBlank(ind);
    SkipAll(Break(ind), "]" + t);
    SkipHead("]" + t);
    assert ("]" + t)[1..] == t;
  }

  lemma NextItem(v: Json, x: string, ind: string, more: string, u: string, items: seq<Json>, t: string)
    requires AllBlank(ind)
    requires ReadValue(x + ("," + (Break(ind) + (more + u)))) == Done(v, "," + (Break(ind) + (more + u)))
    requires ReadItems(more + u) == Done(items, t)
    ensures ReadItems(x + ("," + (Break(ind) + (more + u)))) == Done([v] + items, t)
  {
    var r := "," + (Break(ind) + (more + u));
    SkipHead(r);
    assert r[1..] == Break(ind) + (more + u);
    BreakIsBlank(ind);
    SkipAll(Break(ind), more + u);
    BlanksDoNotMatter(Break(ind) + (more + u), more + u);
  }

  lemma LastField(f: Field, x: string, ind: string, t: string)
    requires AllBlank(ind) && ReadField(x + (Break(ind) + ("}" + t))) == Done(f, Break(ind) + ("}" + t))
    ensures ReadFields(x + (Break(ind) + ("}" + t))) == Done([f], t)
  {
    BreakIsBlank(ind);
    SkipAll(Break(ind), "}" + t);
    SkipHead("}" + t);
    assert ("}" + t)[1..] == t;
  }

  lemma NextField(f: Field, x: string, ind: string, more: string, u: string, fs: seq<Field>, t: string)
    requires AllBlank(ind)
    requires ReadField(x + ("," + (Break(ind) + (more + u)))) == Done(f, "," + (Break(ind) + (more + u)))
    requires ReadFields(more + u) == Done(fs, t)
    ensures ReadFields(x + ("," + (Break(ind) + (more + u)))) == Done([f] + fs, t)
  {
    var r := "," + (Break(ind) + (more + u));
    SkipHead(r);
    assert r[1..] == Break(ind) + (more + u);
    BreakIsBlank(ind);
    SkipAll(Break(ind), more + u);
    BlanksDoNotMatter(Break(ind) + (more + u), more + u);
  }

  lemma OneField(k: string, v: Json, x: string, u: string)
    requires ReadValue(x + u) == Done(v, u)
    ensures ReadField((Quote(k) + (": " + x)) + u) == Done(Field(k, v), u)
  {
    var w := ": " + (x + u);
    FieldText(Quote(k), x, u);
    QuoteRoundTrip(k, w);
    SkipHead(Quote(k) + w);
    SkipHead(w);
    SkipAll(" ", x + u);
    BlanksDoNotMatter(" " + (x + u), x + u);
  }

  lemma FieldText(q: string, x: string, u: string)
    ensures (q + (": " + x)) + u == q + (": " + (x + u))
    ensures (": " + (x + u))[1..] == " " + (x + u)
  {
  }

  // ---- the whole ----

  lemma PutLast(acc: seq<Field>, f: Field)
    requires DistinctKeys(acc + [f]) && Sorted(acc + [f], FieldLess)
    ensures Put(acc, f.key, f.value) == acc + [f]
  {
    if acc != [] {
      assert (acc + [f])[0] == acc[0] && (acc + [f])[|acc|] == f;
      assert !FieldLess(f, acc[0]);
      assert acc[1..] + [f] == (acc + [f])[1..];
      PutLast(acc[1..], f);
    }
  }

  /** Creating the properties of an ordered list one by one gives the list. */
  lemma {:induction false} PutAllInOrder(acc: seq<Field>, fs: seq<Field>)
    requires DistinctKeys(acc + fs) && Sorted(acc + fs, FieldLess)
    ensures PutAll(acc, fs) == acc + fs
    decreases fs
  {
    if fs == [] {
      assert acc + fs == acc;
    } else {
      assert (acc + [fs[0]]) + fs[1..] == acc + fs;
      assert acc + [fs[0]] == (acc + fs)[..|acc| + 1];
      PutLast(acc, fs[0]);
      PutAllInOrder(acc + [fs[0]], fs[1..]);
    }
  }

  /** A printed value, whatever follows it, is read back as that value. */
  lemma {:induction false} PrintRead(v: Json, ind: string, t: string)
    requires Printable(v) && AllBlank(ind) && Delimited(t)
    ensures ReadValue(Print(v, ind) + t) == Done(v, t)
  {
    match v
    case Null => WordRoundTrip("null", t);
    case Bool(b) => WordRoundTrip(if b then "true" else "false", t);
    case Num(x) => ReadNumeric(x, t);
    case Str(x) => ReadQuoted(x, t);
    case Arr(items) =>
      if items == [] {
        EmptyArray(t);
      } else {
        BreakIsBlank(ind);
        ItemsRead(items, ind, t);
        ItemsHead(items, ind + "  ");
        ReadArray(PrintItems(items, ind + "  "), ind, t, items);
      }
    case Obj(fs) =>
      if fs == [] {
        EmptyObject(t);
      } else {
        BreakIsBlank(ind);
        FieldsRead(fs, ind, t);
        FieldsHead(fs, ind + "  ");
        ReadObject(PrintFields(fs, ind + "  "), ind, t, fs);
        assert [] + fs == fs;
        PutAllInOrder([], fs);
      }
  }

  lemma EmptyArray(t: string)
    ensures ReadValue("[]" + t) == Done(Arr([]), t)
  {
    NoWord("[]" + t);
    assert ("[]" + t)[1..] == "]" + t;
    SkipHead("]" + t);
    assert ("]" + t)[1..] == t;
  }

  lemma EmptyObject(t: string)
    ensures ReadValue("{}" + t) == Done(Obj([]), t)
  {
    NoWord("{}" + t);
    assert ("{}" + t)[1..] == "}" + t;
    SkipHead("}" + t);
    assert ("}" + t)[1..] == t;
  }

  lemma ItemsHead(items: seq<Json>, ind: string)
    requires items != [] && Printable(items[0])
    ensures PrintItems(items, ind) != "" && !Blank(PrintItems(items, ind)[0]) && PrintItems(items, ind)[0] != ']'
  {
    PrintHead(items[0], ind);
  }

  lemma FieldsHead(fs: seq<Field>, ind: string)
    requires fs != []
    ensures PrintFields(fs, ind) != "" && PrintFields(fs, ind)[0] == '"'
  {
  }

  lemma ItemsText(items: seq<Json>, deep: string, u: string)
    requires items != []
    ensures PrintItems(items, deep) + u
         == if |items| == 1 then Print(items[0], deep) + u
            else Print(items[0], deep) + ("," + (Break(deep) + (PrintItems(items[1..], deep) + u)))
  {
    var x := Print(items[0], deep);
    if |items| == 1 {
      assert x + "" == x;
    } else {
      Regroup(x, Break(deep), PrintItems(items[1..], deep), u);
    }
  }

  lemma FieldsText(fs: seq<Field>, deep: string, u: string)
    requires fs != []
    ensures PrintFields(fs, deep) + u
         == if |fs| == 1 then PrintField(fs[0], deep) + u
            else PrintField(fs[0], deep) + ("," + (Break(deep) + (PrintFields(fs[1..], deep) + u)))
  {
    var x := PrintField(fs[0], deep);
    if |fs| == 1 {
      assert x + "" == x;
    } else {
      Regroup(x, Break(deep), PrintFields(fs[1..], deep), u);
    }
  }

  lemma LastItemsRead(items: seq<Json>, ind: string, t: string)
    requires |items| == 1 && AllBlank(ind)
    requires var x, u := Print(items[0], ind + "  "), Break(ind) + ("]" + t);
             ReadValue(x + u) == Done(items[0], u)
    ensures ReadItems(PrintItems(items, ind + "  ") + (Break(ind) + ("]" + t))) == Done(items, t)
  {
    ItemsText(items, ind + "  ", Break(ind) + ("]" + t));
    LastItem(items[0], Print(items[0], ind + "  "), ind, t);
    assert items == [items[0]];
  }

  lemma ItemsTextCons(v: Json, rest: seq<Json>, deep: string, u: string)
    requires rest != []
    ensures PrintItems([v] + rest, deep) + u
         == Print(v, deep) + ("," + (Break(deep) + (PrintItems(rest, deep) + u)))
  {
    assert ([v] + rest)[1..] == rest;
    ItemsText([v] + rest, deep, u);
  }

  lemma MoreItemsRead(v: Json, rest: seq<Json>, deep: string, x: string, more: string, u: string, t: string)
    requires rest != [] && AllBlank(deep) && x == Print(v, deep) && more == PrintItems(rest, deep)
    requires ReadValue(x + ("," + (Break(deep) + (more + u)))) == Done(v, "," + (Break(deep) + (more + u)))
    requires ReadItems(more + u) == Done(rest, t)
    ensures ReadItems(PrintItems([v] + rest, deep) + u) == Done([v] + rest, t)
  {
    ItemsTextCons(v, rest, deep, u);
    ItemsFrom(PrintItems([v] + rest, deep) + u, [v] + rest, v, x, deep, more, u, rest, t);
  }

  lemma ItemsFrom(text: string, all: seq<Json>, v: Json, x: string, deep: string, more: string, u: string,
                 rest: seq<Json>, t: string)
    requires AllBlank(deep) && text == x + ("," + (Break(deep) + (more + u))) && all == [v] + rest
    requires ReadValue(x + ("," + (Break(deep) + (more + u)))) == Done(v, "," + (Break(deep) + (more + u)))
    requires ReadItems(more + u) == Done(rest, t)
    ensures ReadItems(text) == Done(all, t)
  {
    NextItem(v, x, deep, more, u, rest, t);
  }

  lemma {:induction false} ItemsRead(items: seq<Json>, ind: string, t: string)
    requires items != [] && AllBlank(ind)
    requires forall i :: 0 <= i < |items| ==> Printable(items[i])
    ensures ReadItems(PrintItems(items, ind + "  ") + (Break(ind) + ("]" + t))) == Done(items, t)
  {
    var deep, u := ind + "  ", Break(ind) + ("]" + t);
    if |items| == 1 {
      PrintRead(items[0], deep, u);
      LastItemsRead(items, ind, t);
    } else {
      PrintRead(items[0], deep, "," + (Break(deep) + (PrintItems(items[1..], deep) + u)));
      ItemsRead(items[1..], ind, t);
      MoreItemsRead(items[0], items[1..], deep, Print(items[0], deep), PrintItems(items[1..], deep), u, t);
      assert items == [items[0]] + items[1..];
    }
  }

  lemma LastFieldsRead(fs: seq<Field>, ind: string, t: string)
    requires |fs| == 1 && AllBlank(ind)
    requires var x, u := PrintField(fs[0], ind + "  "), Break(ind) + ("}" + t);
             ReadField(x + u) == Done(fs[0], u)
    ensures ReadFields(PrintFields(fs, ind + "  ") + (Break(ind) + ("}" + t))) == Done(fs, t)
  {
    FieldsText(fs, ind + "  ", Break(ind) + ("}" + t));
    LastField(fs[0], PrintField(fs[0], ind + "  "), ind, t);
    assert fs == [fs[0]];
  }

  lemma FieldsTextCons(v: Field, rest: seq<Field>, deep: string, u: string)
    requires rest != []
    ensures PrintFields([v] + rest, deep) + u
         == PrintField(v, deep) + ("," + (Break(deep) + (PrintFields(rest, deep) + u)))
  {
    assert ([v] + rest)[1..] == rest;
    FieldsText([v] + rest, deep, u);
  }

  lemma MoreFieldsRead(v: Field, rest: seq<Field>, deep: string, x: string, more: string, u: string, t: string)
    requires rest != [] && AllBlank(deep) && x == PrintField(v, deep) && more == PrintFields(rest, deep)
    requires ReadField(x + ("," + (Break(deep) + (more + u)))) == Done(v, "," + (Break(deep) + (more + u)))
    requires ReadFields(more + u) == Done(rest, t)
    ensures ReadFields(PrintFields([v] + rest, deep) + u) == Done([v] + rest, t)
  {
    FieldsTextCons(v, rest, deep, u);
    FieldsFrom(PrintFields([v] + rest, deep) + u, [v] + rest, v, x, deep, more, u, rest, t);
  }

  lemma FieldsFrom(text: string, all: seq<Field>, v: Field, x: string, deep: string, more: string, u: string,
                 rest: seq<Field>, t: string)
    requires AllBlank(deep) && text == x + ("," + (Break(deep) + (more + u))) && all == [v] + rest
    requires ReadField(x + ("," + (Break(deep) + (more + u)))) == Done(v, "," + (Break(deep) + (more + u)))
    requires ReadFields(more + u) == Done(rest, t)
    ensures ReadFields(text) == Done(all, t)
  {
    NextField(v, x, deep, more, u, rest, t);
  }

  lemma {:induction false} FieldsRead(fs: seq<Field>, ind: string, t: string)
    requires fs != [] && AllBlank(ind)
    requires forall i :: 0 <= i < |fs| ==> Printable(fs[i].value)
    ensures ReadFields(PrintFields(fs, ind + "  ") + (Break(ind) + ("}" + t))) == Done(fs, t)
  {
    var deep, u := ind + "  ", Break(ind) + ("}" + t);
    if |fs| == 1 {
      FieldRead(fs[0], deep, u);
      LastFieldsRead(fs, ind, t);
    } else {
      FieldRead(fs[0], deep, "," + (Break(deep) + (PrintFields(fs[1..], deep) + u)));
      FieldsRead(fs[1..], ind, t);
      MoreFieldsRead(fs[0], fs[1..], deep, PrintField(fs[0], deep), PrintFields(fs[1..], deep), u, t);
      assert fs == [fs[0]] + fs[1..];
    }
  }

  lemma {:induction false} FieldRead(f: Field, deep: string, w: string)
    requires Printable(f.value) && AllBlank(deep) && Delimited(w)
    ensures ReadField(PrintField(f, deep) + w) == Done(f, w)
  {
    PrintRead(f.value, deep, w);
    OneField(f.key, f.value, Print(f.value, deep), w);
  }

  lemma Regroup(x: string, brk: string, more: string, u: string)
    ensures (x + ("," + (brk + more))) + u == x + ("," + (brk + (more + u)))
  {
  }

  /** The canonical tree can be read off its text. */
  lemma TextRoundTrip(v: Json)
    requires Printable(v)
    ensures ReadJson(Print(v, "") + "\n") == Some(v)
    ensures ReadJson(Print(v, "")) == Some(v)
  {
    PrintRead(v, "", "\n");
    PrintRead(v, "", "");
    assert Print(v, "") + "" == Print(v, "");
    assert SkipBlanks("\n") == SkipBlanks("\n"[1..]);
  }

  // ---- line ends ----

  /** `replace(/\r\n/g, '\n')` */
  function ReplaceCrLf(s: string): string {
    if s == "" then ""
    else if |s| >= 2 && s[0] == '\r' && s[1] == '\n' then "\n" + ReplaceCrLf(s[2..])
    else [s[0]] + ReplaceCrLf(s[1..])
  }

  predicate NoReturn(s: string) {
    forall i :: 0 <= i < |s| ==> s[i] != '\r'
  }

  lemma {:induction false} ReplaceNothing(s: string)
    requires NoReturn(s)
    ensures ReplaceCrLf(s) == s
  {
    if s != "" { ReplaceNothing(s[1..]); }
  }

  lemma {:induction false} EscapedHasNoReturn(s: string)
    ensures NoReturn(EscapeAll(s))
  {
    if s != "" {
      EscapedHasNoReturn(s[1..]);
      assert NoReturn(Escape(s[0]));
    }
  }

  lemma NoReturnAppend(a: string, b: string)
    requires NoReturn(a) && NoReturn(b)
    ensures NoReturn(a + b)
  {
  }

  lemma QuotedHasNoReturn(s: string)
    ensures NoReturn(Quote(s))
  {
    EscapedHasNoReturn(s);
  }

  lemma NumberHasNoReturn(t: string)
    requires NumberToken(t)
    ensures NoReturn(t)
  {
    NumberChars(t);
  }

  lemma ArrayHasNoReturn(items: seq<Json>, ind: string)
    requires items != [] && NoReturn(ind) && NoReturn(PrintItems(items, ind + "  "))
    ensures NoReturn(Print(Arr(items), ind))
  {
    BlockHasNoReturn("[", PrintItems(items, ind + "  "), ind, "]");
  }

  lemma ObjectHasNoReturn(fs: seq<Field>, ind: string)
    requires fs != [] && NoReturn(ind) && NoReturn(PrintFields(fs, ind + "  "))
    ensures NoReturn(Print(Obj(fs), ind))
  {
    BlockHasNoReturn("{", PrintFields(fs, ind + "  "), ind, "}");
  }

  /** The printer escapes carriage returns, so the replacement finds nothing to replace. */
  lemma {:induction false} PrintHasNoReturn(v: Json, ind: string)
    requires Printable(v) && NoReturn(ind)
    ensures NoReturn(Print(v, ind))
  {
    match v
    case Num(t) => NumberHasNoReturn(t);
    case Str(s) => QuotedHasNoReturn(s);
    case Arr(items) =>
      if items != [] {
        NoReturnAppend(ind, "  ");
        ItemsHaveNoReturn(items, ind + "  ");
        ArrayHasNoReturn(items, ind);
      }
    case Obj(fs) =>
      if fs != [] {
        NoReturnAppend(ind, "  ");
        FieldsHaveNoReturn(fs, ind + "  ");
        ObjectHasNoReturn(fs, ind);
      }
    case _ =>
  }

  lemma BlockHasNoReturn(open: string, body: string, ind: string, close: string)
    requires NoReturn(open) && NoReturn(body) && NoReturn(ind) && NoReturn(close)
    ensures NoReturn(open + (Break(ind + "  ") + (body + (Break(ind) + close))))
  {
    NoReturnAppend("\n", ind);
    NoReturnAppend(ind, "  ");
    NoReturnAppend("\n", ind + "  ");
    NoReturnAppend(Break(ind), close);
    NoReturnAppend(body, Break(ind) + close);
    NoReturnAppend(Break(ind + "  "), body + (Break(ind) + close));
    NoReturnAppend(open, Break(ind + "  ") + (body + (Break(ind) + close)));
  }

  lemma {:induction false} ItemsHaveNoReturn(items: seq<Json>, ind: string)
    requires items != [] && NoReturn(ind) && forall i :: 0 <= i < |items| ==> Printable(items[i])
    ensures NoReturn(PrintItems(items, ind))
  {
    PrintHasNoReturn(items[0], ind);
    if |items| > 1 { ItemsHaveNoReturn(items[1..], ind); }
  }

  lemma {:induction false} FieldsHaveNoReturn(fs: seq<Field>, ind: string)
    requires fs != [] && NoReturn(ind) && forall i :: 0 <= i < |fs| ==> Printable(fs[i].value)
    ensures NoReturn(PrintFields(fs, ind))
  {
    QuotedHasNoReturn(fs[0].key);
    PrintHasNoReturn(fs[0].value, ind);
    if |fs| > 1 { FieldsHaveNoReturn(fs[1..], ind); }
  }

  // ---- canonical text ----

  /** `canonicalJson`; printing `undefined` gives no string, and the replacement then throws. */
  function Canonical(v: Json): Option<string> {
    if v.Undef? then None else Some(ReplaceCrLf(Print(Norm(v), "")))
  }

  lemma CanonicalIs(v: Json)
    requires WellFormed(v) && !v.Undef?
    ensures Canonical(v) == Some(Print(Norm(v), "")) && Printable(Norm(v))
  {
    NormIsPrintable(v);
    PrintHasNoReturn(Norm(v), "");
    ReplaceNothing(Print(Norm(v), ""));
  }

  /** Two values have the same canonical text exactly when they are the same value up to the order of
      keys at every depth, `undefined` and `__proto__` fields aside. */
  lemma CanonicalIffSameMeaning(v: Json, w: Json)
    requires WellFormed(v) && WellFormed(w)
    ensures Canonical(v) == Canonical(w) <==> v.Undef? == w.Undef? && Meaning(v) == Meaning(w)
  {
    if !v.Undef? && !w.Undef? {
      CanonicalIs(v);
      CanonicalIs(w);
      NormIffMeaning(v, w);
      TextRoundTrip(Norm(v));
      TextRoundTrip(Norm(w));
    }
  }
}
