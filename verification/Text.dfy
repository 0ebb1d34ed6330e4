// Character and string primitives of the host language that the modelled code relies on:
// white space, ASCII case folding, trimming and the default (UTF-16) string order.

module Text {

  /** The characters matched by `\s` and removed by `trim()`. */
  predicate IsSpace(c: char) {
    || '\t' <= c <= '\r'
    || c == ' '
    || c == '\U{00A0}'
    || c == '\U{1680}'
    || '\U{2000}' <= c <= '\U{200A}'
    || c == '\U{2028}'
    || c == '\U{2029}'
    || c == '\U{202F}'
    || c == '\U{205F}'
    || c == '\U{3000}'
    || c == '\U{FEFF}'
  }

  /** The characters that a regular-expression dot does not match. */
  predicate IsLineEnd(c: char) {
    c == '\n' || c == '\r' || c == '\U{2028}' || c == '\U{2029}'
  }

  predicate IsDigit(c: char) {
    '0' <= c <= '9'
  }

  predicate IsLetter(c: char) {
    'a' <= c <= 'z' || 'A' <= c <= 'Z'
  }

  function Lower(c: char): char {
    if 'A' <= c <= 'Z' then (c as int + 32) as char else c
  }

  function Upper(c: char): char {
    if 'a' <= c <= 'z' then (c as int - 32) as char else c
  }

  function ToLower(s: string): (r: string)
    ensures |r| == |s|
    ensures forall i :: 0 <= i < |s| ==> r[i] == Lower(s[i])
  {
    if s == "" then "" else [Lower(s[0])] + ToLower(s[1..])
  }

  function ToUpper(s: string): (r: string)
    ensures |r| == |s|
    ensures forall i :: 0 <= i < |s| ==> r[i] == Upper(s[i])
  {
    if s == "" then "" else [Upper(s[0])] + ToUpper(s[1..])
  }

  predicate StartsWith(s: string, p: string) {
    |p| <= |s| && s[..|p|] == p
  }

  lemma HeadOfPrefix(u: string, w: string)
    requires StartsWith(u, w) && w != ""
    ensures u != "" && u[0] == w[0]
  {
    assert u[..|w|][0] == u[0];
  }

  /** `haystack.includes(needle)`. */
  predicate Includes(haystack: string, needle: string) {
    StartsWith(haystack, needle) || (haystack != "" && Includes(haystack[1..], needle))
  }

  function TrimLeft(s: string): string {
    if s != "" && IsSpace(s[0]) then TrimLeft(s[1..]) else s
  }

  function TrimRight(s: string): string {
    if s != "" && IsSpace(s[|s| - 1]) then TrimRight(s[..|s| - 1]) else s
  }

  function Trim(s: string): string {
    TrimRight(TrimLeft(s))
  }

  /** No white space at either end: exactly the strings that `trim()` leaves alone. */
  predicate Tight(s: string) {
    s != "" ==> !IsSpace(s[0]) && !IsSpace(s[|s| - 1])
  }

  lemma TrimTight(s: string)
    requires Tight(s)
    ensures Trim(s) == s
  {
  }

  /** `xs.join(sep)`. */
  function Join(xs: seq<string>, sep: string): string {
    if |xs| == 0 then ""
    else if |xs| == 1 then xs[0]
    else xs[0] + (sep + Join(xs[1..], sep))
  }

  // ---- cutting at a mark ----

  predicate Lacks(s: string, c: char) {
    forall i :: 0 <= i < |s| ==> s[i] != c
  }

  lemma FirstMarkBound(a: string, x: string, b: string, y: string, c: char)
    requires Lacks(b, c) && a + ([c] + x) == b + ([c] + y)
    ensures |a| >= |b|
  {
    var s := a + ([c] + x);
    assert s[|a|] == c;
    assert forall i :: 0 <= i < |b| ==> s[i] == b[i];
  }

  lemma SameCut(a: string, x: string, b: string, y: string, c: char)
    requires |a| == |b| && a + ([c] + x) == b + ([c] + y)
    ensures a == b && x == y
  {
    var s := a + ([c] + x);
    assert s[..|a|] == a && s[..|b|] == b;
    assert s[|a|..] == [c] + x && s[|b|..] == [c] + y;
    assert ([c] + x)[1..] == x && ([c] + y)[1..] == y;
  }

  /** A text is cut in one way at the first occurrence of a mark. */
  lemma FirstMark(a: string, x: string, b: string, y: string, c: char)
    requires Lacks(a, c) && Lacks(b, c) && a + ([c] + x) == b + ([c] + y)
    ensures a == b && x == y
  {
    FirstMarkBound(a, x, b, y, c);
    FirstMarkBound(b, y, a, x, c);
    SameCut(a, x, b, y, c);
  }

  lemma LastMarkBound(a: string, x: string, b: string, y: string, c: char)
    requires Lacks(x, c) && a + ([c] + x) == b + ([c] + y)
    ensures |a| >= |b|
  {
    var s := a + ([c] + x);
    assert s[|b|] == c;
    assert forall j :: |a| + 1 <= j < |s| ==> s[j] == x[j - |a| - 1];
  }

  /** And in one way at the last. */
  lemma LastMark(a: string, x: string, b: string, y: string, c: char)
    requires Lacks(x, c) && Lacks(y, c) && a + ([c] + x) == b + ([c] + y)
    ensures a == b && x == y
  {
    LastMarkBound(a, x, b, y, c);
    LastMarkBound(b, y, a, x, c);
    SameCut(a, x, b, y, c);
  }

  // ---- the default string order ----

  /** Order of two characters by their UTF-16 encodings. */
  predicate CharLess(a: char, b: char) {
    if (a as int < 0x1_0000) == (b as int < 0x1_0000) then a < b
    else if (a as int) < 0x1_0000 then (a as int) < 0xD800
    else (b as int) >= 0xE000
  }

  /** The order of `<` on strings and of `sort()` without a comparator. */
  predicate TextLess(a: string, b: string) {
    if b == "" then false
    else if a == "" then true
    else if a[0] == b[0] then TextLess(a[1..], b[1..])
    else CharLess(a[0], b[0])
  }

  lemma {:induction false} TextLessIrreflexive(a: string)
    ensures !TextLess(a, a)
  {
    if a != "" { TextLessIrreflexive(a[1..]); }
  }

  lemma {:induction false} TextLessTransitive(a: string, b: string, c: string)
    requires TextLess(a, b) && TextLess(b, c)
    ensures TextLess(a, c)
  {
    if a != "" && a[0] == b[0] == c[0] { TextLessTransitive(a[1..], b[1..], c[1..]); }
  }

  lemma {:induction false} TextLessTotal(a: string, b: string)
    requires a != b
    ensures TextLess(a, b) || TextLess(b, a)
  {
    if a != "" && b != "" && a[0] == b[0] {
      assert a == [a[0]] + a[1..] && b == [b[0]] + b[1..];
      TextLessTotal(a[1..], b[1..]);
    }
  }

  // ---- numerals ----

  /** The length of the run of digits at the start. */
  function DigitRun(s: string): nat
    ensures DigitRun(s) <= |s|
    ensures DigitRun(s) < |s| ==> !IsDigit(s[DigitRun(s)])
    ensures forall i :: 0 <= i < DigitRun(s) ==> IsDigit(s[i])
  {
    if s != "" && IsDigit(s[0]) then 1 + DigitRun(s[1..]) else 0
  }

  function DigitChar(d: nat): char
    requires d < 10
  {
    ('0' as int + d) as char
  }

  /** `String(n)` */
  function NatText(n: nat): (r: string)
    ensures r != ""
  {
    if n < 10 then [DigitChar(n)] else NatText(n / 10) + [DigitChar(n % 10)]
  }

  lemma {:induction false} NatTextInjective(a: nat, b: nat)
    requires NatText(a) == NatText(b)
    ensures a == b
  {
    var s, t := NatText(a), NatText(b);
    assert s[|s| - 1] == DigitChar(a % 10) && t[|t| - 1] == DigitChar(b % 10);
    assert a >= 10 ==> s[..|s| - 1] == NatText(a / 10) && |s| > 1;
    assert b >= 10 ==> t[..|t| - 1] == NatText(b / 10) && |t| > 1;
    if a >= 10 && b >= 10 { NatTextInjective(a / 10, b / 10); }
  }
}
