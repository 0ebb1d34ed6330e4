// Parsing the canonical text of a tree gives the tree back.

module VelSkip {
  import opened Options
  import opened Text
  import opened VelAst
  import opened VelScan

  // ---- text the splitter passes over ----

  /** At this level the splitter copies `x` and goes on with `t`. */
  ghost predicate Skips(x: string, t: string, depth: int, bracket: int, op: Conn) {
    forall cur :: SplitFrom(x + t, cur, depth, bracket, None, op) == SplitFrom(t, cur + x, depth, bracket, None, op)
  }

  lemma SkipsAppend(x: string, y: string, t: string, depth: int, bracket: int, op: Conn)
    requires Skips(x, y + t, depth, bracket, op) && Skips(y, t, depth, bracket, op)
    ensures Skips(x + y, t, depth, bracket, op)
  {
    assert (x + y) + t == x + (y + t);
    forall cur
      ensures SplitFrom((x + y) + t, cur, depth, bracket, None, op)
           == SplitFrom(t, cur + (x + y), depth, bracket, None, op)
    {
      assert cur + (x + y) == (cur + x) + y;
      assert SplitFrom(x + (y + t), cur, depth, bracket, None, op)
          == SplitFrom(y + t, cur + x, depth, bracket, None, op);
      assert SplitFrom(y + t, cur + x, depth, bracket, None, op)
          == SplitFrom(t, (cur + x) + y, depth, bracket, None, op);
    }
  }

  predicate Plain(c: char) {
    !QuoteChar(c) && !GroupChar(c) && !IsSpace(c)
  }

  predicate AllPlain(s: string) {
    forall i :: 0 <= i < |s| ==> Plain(s[i])
  }

  lemma SkipsChar(c: char, t: string, depth: int, bracket: int, op: Conn)
    requires !QuoteChar(c) && !GroupChar(c)
    requires !CutsAt([c] + t, depth, bracket, op)
    ensures Skips([c], t, depth, bracket, op)
  {
    assert ([c] + t)[1..] == t;
  }

  lemma {:induction false} SkipsPlain(w: string, t: string, depth: int, bracket: int, op: Conn)
    requires AllPlain(w)
    ensures Skips(w, t, depth, bracket, op)
  {
    if w == "" {
      assert w + t == t;
      assert forall cur: string :: cur + w == cur;
    } else {
      SkipsPlain(w[1..], t, depth, bracket, op);
      SkipsChar(w[0], w[1..] + t, depth, bracket, op);
      SkipsAppend([w[0]], w[1..], t, depth, bracket, op);
      assert w == [w[0]] + w[1..];
    }
  }

  lemma {:induction false} SkipsToQuote(q: char, x: string, t: string, cur: string, depth: int, bracket: int, op: Conn)
    requires Lacks(x, q)
    ensures SplitFrom(x + ([q] + t), cur, depth, bracket, Some(q), op)
         == SplitFrom(t, cur + (x + [q]), depth, bracket, None, op)
  {
    if x == "" {
      assert x + ([q] + t) == [q] + t;
      assert ([q] + t)[1..] == t;
      assert cur + (x + [q]) == cur + [q];
    } else {
      var s := x + ([q] + t);
      assert s[1..] == x[1..] + ([q] + t);
      SkipsToQuote(q, x[1..], t, cur + [x[0]], depth, bracket, op);
      assert (cur + [x[0]]) + (x[1..] + [q]) == cur + (x + [q]);
    }
  }

  /** Whatever stands between two quotes of one kind is copied: nothing in it splits, opens or closes. */
  lemma SkipsQuoted(q: char, x: string, t: string, depth: int, bracket: int, op: Conn)
    requires QuoteChar(q) && Lacks(x, q)
    ensures Skips([q] + x + [q], t, depth, bracket, op)
  {
    var s := ([q] + x + [q]) + t;
    assert s[1..] == x + ([q] + t);
    forall cur
      ensures SplitFrom(s, cur, depth, bracket, None, op)
           == SplitFrom(t, cur + ([q] + x + [q]), depth, bracket, None, op)
    {
      SkipsToQuote(q, x, t, cur + [q], depth, bracket, op);
      assert (cur + [q]) + (x + [q]) == cur + ([q] + x + [q]);
    }
  }

  lemma SkipsParens(x: string, t: string, depth: nat, op: Conn)
    requires Skips(x, ")" + t, depth + 1, 0, op)
    ensures Skips("(" + x + ")", t, depth, 0, op)
  {
    var s := ("(" + x + ")") + t;
    assert s[1..] == x + (")" + t);
    assert (")" + t)[1..] == t;
    forall cur
      ensures SplitFrom(s, cur, depth, 0, None, op) == SplitFrom(t, cur + ("(" + x + ")"), depth, 0, None, op)
    {
      assert SplitFrom(s, cur, depth, 0, None, op) == SplitFrom(x + (")" + t), cur + "(", depth + 1, 0, None, op);
      assert ((cur + "(") + x) + ")" == cur + ("(" + x + ")");
    }
  }

  lemma SkipsBrackets(x: string, t: string, depth: nat, op: Conn)
    requires Skips(x, "]" + t, depth, 1, op)
    ensures Skips("[" + x + "]", t, depth, 0, op)
  {
    var s := ("[" + x + "]") + t;
    assert s[1..] == x + ("]" + t);
    assert ("]" + t)[1..] == t;
    forall cur
      ensures SplitFrom(s, cur, depth, 0, None, op) == SplitFrom(t, cur + ("[" + x + "]"), depth, 0, None, op)
    {
      assert SplitFrom(s, cur, depth, 0, None, op) == SplitFrom(x + ("]" + t), cur + "[", depth, 1, None, op);
      assert ((cur + "[") + x) + "]" == cur + ("[" + x + "]");
    }
  }

  /** A passage that starts at one level and ends, outside quotes, at another, and in between stands at the
      top level in quotes only. */
  predicate Enclosed(x: string, depth: int, bracket: int, quote: Option<char>, depthAfter: int, bracketAfter: int) {
    if x == "" then quote.None? && depth == depthAfter && bracket == bracketAfter
    else if quote.Some? then
      Enclosed(x[1..], depth, bracket, if x[0] == quote.value then None else quote, depthAfter, bracketAfter)
    else if QuoteChar(x[0]) then
      Enclosed(x[1..], depth, bracket, Some(x[0]), depthAfter, bracketAfter)
    else
      var d, b := Level(x[0], '(', ')', depth), Level(x[0], '[', ']', bracket);
      !(d == 0 && b == 0) && Enclosed(x[1..], d, b, None, depthAfter, bracketAfter)
  }

  lemma {:induction false} PassesEnclosed(x: string, t: string, cur: string, depth: int, bracket: int,
                                          quote: Option<char>,
                                          depthAfter: int, bracketAfter: int, op: Conn)
    requires Enclosed(x, depth, bracket, quote, depthAfter, bracketAfter)
    ensures SplitFrom(x + t, cur, depth, bracket, quote, op)
         == SplitFrom(t, cur + x, depthAfter, bracketAfter, None, op)
  {
    if x == "" {
      assert x + t == t && cur + x == cur;
    } else {
      var s := x + t;
      assert s[1..] == x[1..] + t;
      assert (cur + [x[0]]) + x[1..] == cur + x;
      if quote.Some? {
        var q := if x[0] == quote.value then None else quote;
        PassesEnclosed(x[1..], t, cur + [x[0]], depth, bracket, q, depthAfter, bracketAfter, op);
      } else if QuoteChar(x[0]) {
        PassesEnclosed(x[1..], t, cur + [x[0]], depth, bracket, Some(x[0]), depthAfter, bracketAfter, op);
      } else {
        var d, b := Level(x[0], '(', ')', depth), Level(x[0], '[', ']', bracket);
        PassesEnclosed(x[1..], t, cur + [x[0]], d, b, None, depthAfter, bracketAfter, op);
      }
    }
  }

  /** Nothing inside brackets splits, be it a connective, a quoted text or a group, as long as the brackets,
      parentheses and quotes that open in there also close in there. */
  lemma BracketedNeverSplits(x: string, t: string, depth: nat, op: Conn)
    requires Enclosed(x, depth, 1, None, depth, 1)
    ensures Skips("[" + x + "]", t, depth, 0, op)
  {
    forall cur
      ensures SplitFrom(x + ("]" + t), cur, depth, 1, None, op) == SplitFrom("]" + t, cur + x, depth, 1, None, op)
    {
      PassesEnclosed(x, "]" + t, cur, depth, 1, None, depth, 1, op);
    }
    SkipsBrackets(x, t, depth, op);
  }

  /** Nor inside parentheses. */
  lemma ParenthesisedNeverSplits(x: string, t: string, depth: nat, op: Conn)
    requires Enclosed(x, depth + 1, 0, None, depth + 1, 0)
    ensures Skips("(" + x + ")", t, depth, 0, op)
  {
    forall cur
      ensures SplitFrom(x + (")" + t), cur, depth + 1, 0, None, op)
           == SplitFrom(")" + t, cur + x, depth + 1, 0, None, op)
    {
      PassesEnclosed(x, ")" + t, cur, depth + 1, 0, None, depth + 1, 0, op);
    }
    SkipsParens(x, t, depth, op);
  }

  /** In particular a text without quotes, parentheses and brackets may stand between brackets. */
  lemma {:induction false} FlatIsEnclosed(x: string, depth: int)
    requires forall i :: 0 <= i < |x| ==> !QuoteChar(x[i]) && !GroupChar(x[i])
    ensures Enclosed(x, depth, 1, None, depth, 1)
  {
    if x != "" { FlatIsEnclosed(x[1..], depth); }
  }

  // ---- white space that is not around a connective ----

  /** The next character cannot prolong a word. */
  predicate Boundary(t: string) {
    t == "" || !WordChar(t[0])
  }

  lemma GapRun(t: string)
    requires t == "" || !IsSpace(t[0])
    ensures SpaceRun(" " + t) == 1 && (" " + t)[1..] == t
  {
    assert (" " + t)[1..] == t;
  }

  predicate NoConnStart(c: char) {
    !IsSpace(c) && Lower(c) != 'a' && Lower(c) != 'o' && c != '&' && c != '|'
  }

  lemma NoConnBefore(t: string)
    requires t == "" || NoConnStart(t[0])
    ensures MatchConn(" " + t) == None
  {
    GapRun(t);
    assert (" " + t)[1..] == t;
  }

  lemma SameWord(w: string, t: string, k: string)
    requires |w| == |k|
    ensures WordAt(w + t, k) == IsWord(w, k)
  {
    if IsWord(w, k) {
      assert forall i :: 0 <= i < |k| ==> (w + t)[i] == w[i];
    } else {
      var i :| 0 <= i < |k| && Lower(w[i]) != k[i];
      assert (w + t)[i] == w[i];
    }
  }

  lemma NoConnBeforeName(w: string, t: string)
    requires SafeName(w) && Boundary(t)
    ensures MatchConn(" " + (w + t)) == None
  {
    var u := w + t;
    GapRun(u);
    if WordAt(u, "and") {
      NameGoesOn(w, t, "and");
    } else if WordAt(u, "or") {
      NameGoesOn(w, t, "or");
    } else {
      assert WordStart(u[0]);
    }
  }

  /** A name that starts with the connective `k` is longer than it. */
  lemma NameGoesOn(w: string, t: string, k: string)
    requires SafeName(w) && Boundary(t) && WordAt(w + t, k) && (k == "and" || k == "or")
    ensures SpaceRun((w + t)[|k|..]) == 0
  {
    var u := w + t;
    assert forall i :: 0 <= i < |k| ==> WordChar(u[i]) by { assert forall i :: 0 <= i < |k| ==> Lower(u[i]) == k[i]; }
    assert |w| < |u| ==> u[|w|] == t[0];
    assert |w| >= |k|;
    assert |w| != |k| by { if |w| == |k| { SameWord(w, t, k); } }
    assert u[|k|] == w[|k|];
  }

  lemma NumberChars(k: string)
    requires NumberToken(k)
    ensures k != "" && (k[0] == '-' || IsDigit(k[0]))
    ensures forall i :: 0 <= i < |k| ==> k[i] == '-' || k[i] == '.' || IsDigit(k[i])
  {
    var body := if k != "" && k[0] == '-' then k[1..] else k;
    var n := DigitRun(body);
    DigitRunChars(body);
    if body[n..] != "" { DigitRunChars(body[n..][1..]); }
    forall i | 0 <= i < |body| ensures body[i] == '.' || IsDigit(body[i]) {
      if i > n { assert body[i] == body[n..][1..][i - n - 1]; }
    }
  }

  lemma {:induction false} DigitRunChars(s: string)
    ensures forall i :: 0 <= i < DigitRun(s) ==> IsDigit(s[i])
  {
    if s != "" && IsDigit(s[0]) { DigitRunChars(s[1..]); }
  }

  /** An operand starts with a character that is neither white space nor an operator. */
  lemma NameIsPlain(p: string)
    requires SafeName(p)
    ensures p != "" && AllPlain(p) && !OperatorChar(p[0]) && !GroupChar(p[0])
    ensures forall i :: 0 <= i < |p| ==> !OperatorChar(p[i]) && !GroupChar(p[i]) && !IsLineEnd(p[i])
  {
  }

  lemma OperandShape(o: Operand)
    requires SafeOperand(o)
    ensures var x := OperandText(o);
            && x != "" && Tight(x) && !OperatorChar(x[0]) && !GroupChar(x[0])
            && (forall i :: 0 <= i < |x| ==> !OperatorChar(x[i]) && !GroupChar(x[i]) && !IsLineEnd(x[i]))
            && (!(o.Lit? && o.value.Str?) ==> AllPlain(x))
  {
    match o
    case Field(p) => NameIsPlain(p);
    case Lit(Str(t)) =>
    case Lit(Num(k)) => NumberChars(k); NumberIsPlain(k);
    case Lit(Bool(_)) =>
  }

  lemma NumberIsPlain(k: string)
    requires forall i :: 0 <= i < |k| ==> k[i] == '-' || k[i] == '.' || IsDigit(k[i])
    ensures AllPlain(k)
    ensures forall i :: 0 <= i < |k| ==> !OperatorChar(k[i]) && !GroupChar(k[i]) && !IsLineEnd(k[i])
  {
  }

  lemma NoConnBeforeOperand(o: Operand, t: string)
    requires SafeOperand(o) && Boundary(t)
    ensures MatchConn(" " + (OperandText(o) + t)) == None
  {
    OperandShape(o);
    match o
    case Field(p) => NoConnBeforeName(p, t);
    case Lit(Num(k)) => NumberChars(k); NoConnBefore(k + t);
    case _ => NoConnBefore(OperandText(o) + t);
  }

  // ---- printed trees ----

  lemma SkipsOperand(o: Operand, t: string, depth: int, bracket: int, op: Conn)
    requires SafeOperand(o)
    ensures Skips(OperandText(o), t, depth, bracket, op)
  {
    OperandShape(o);
    match o
    case Lit(Str(x)) => SkipsQuoted('"', x, t, depth, bracket, op);
    case _ => SkipsPlain(OperandText(o), t, depth, bracket, op);
  }

  lemma {:induction false} SkipsList(vs: seq<Operand>, t: string, depth: int, op: Conn)
    requires forall i :: 0 <= i < |vs| ==> SafeElement(vs[i])
    ensures Skips(ListText(vs), t, depth, 1, op)
  {
    if vs == [] {
      SkipsPlain("", t, depth, 1, op);
    } else if |vs| == 1 {
      SkipsOperand(vs[0], t, depth, 1, op);
    } else {
      var rest := ListText(vs[1..]);
      SkipsList(vs[1..], t, depth, op);
      SkipsChar(' ', rest + t, depth, 1, op);
      SkipsAppend(" ", rest, t, depth, 1, op);
      SkipsChar(',', (" " + rest) + t, depth, 1, op);
      SkipsAppend(",", " " + rest, t, depth, 1, op);
      SkipsOperand(vs[0], ("," + (" " + rest)) + t, depth, 1, op);
      SkipsAppend(OperandText(vs[0]), "," + (" " + rest), t, depth, 1, op);
      assert ListText(vs) == OperandText(vs[0]) + ("," + (" " + rest));
    }
  }

  lemma SkipsGapThen(x: string, t: string, depth: int, bracket: int, op: Conn)
    requires Skips(x, t, depth, bracket, op)
    requires MatchConn(" " + (x + t)) == None || depth != 0 || bracket != 0
    ensures Skips(" " + x, t, depth, bracket, op)
  {
    SkipsChar(' ', x + t, depth, bracket, op);
    SkipsAppend(" ", x, t, depth, bracket, op);
  }

  /** A name, a gap and a passage that does not begin with a connective. */
  lemma SkipsWordGap(w: string, x: string, t: string, depth: int, bracket: int, op: Conn)
    requires AllPlain(w) && Skips(x, t, depth, bracket, op)
    requires MatchConn(" " + (x + t)) == None || depth != 0 || bracket != 0
    ensures Skips(w + (" " + x), t, depth, bracket, op)
  {
    SkipsGapThen(x, t, depth, bracket, op);
    SkipsPlain(w, (" " + x) + t, depth, bracket, op);
    SkipsAppend(w, " " + x, t, depth, bracket, op);
  }

  /** A word that is no connective, set between gaps. */
  lemma SkipsMiddle(w: string, x: string, t: string, depth: int, op: Conn)
    requires AllPlain(w) && w != "" && NoConnStart(w[0])
    requires Skips(x, t, depth, 0, op) && MatchConn(" " + (x + t)) == None
    ensures Skips(" " + (w + (" " + x)), t, depth, 0, op)
  {
    var y := w + (" " + x);
    SkipsWordGap(w, x, t, depth, 0, op);
    NoConnBefore(y + t);
    SkipsGapThen(y, t, depth, 0, op);
  }

  lemma CmpShape(c: CmpOp)
    ensures AllPlain(CmpText(c)) && CmpText(c) != "" && NoConnStart(CmpText(c)[0])
  {
  }

  lemma SkipsCompare(l: Operand, c: CmpOp, r: Operand, t: string, depth: int, op: Conn)
    requires SafeOperand(l) && SafeOperand(r) && Boundary(t)
    ensures Skips(OperandText(l) + (" " + (CmpText(c) + (" " + OperandText(r)))), t, depth, 0, op)
  {
    var y := " " + (CmpText(c) + (" " + OperandText(r)));
    assert Skips(y, t, depth, 0, op) by {
      SkipsOperand(r, t, depth, 0, op);
      NoConnBeforeOperand(r, t);
      CmpShape(c);
      SkipsMiddle(CmpText(c), OperandText(r), t, depth, op);
    }
    SkipsOperand(l, y + t, depth, 0, op);
    SkipsAppend(OperandText(l), y, t, depth, 0, op);
  }

  lemma InTextIs(x: string)
    ensures " IN [" + (x + "]") == " " + ("IN" + (" " + ("[" + x + "]")))
  {
  }

  lemma SkipsMember(f: string, vs: seq<Operand>, t: string, depth: nat, op: Conn)
    requires AllPlain(f) && forall i :: 0 <= i < |vs| ==> SafeElement(vs[i])
    ensures Skips(f + (" IN [" + (ListText(vs) + "]")), t, depth, 0, op)
  {
    var x := ListText(vs);
    SkipsList(vs, "]" + t, depth, op);
    SkipsBrackets(x, t, depth, op);
    SkipsInList(f, "[" + x + "]", t, depth, op);
    InTextIs(x);
  }

  lemma SkipsInList(f: string, b: string, t: string, depth: int, op: Conn)
    requires AllPlain(f) && b != "" && b[0] == '[' && Skips(b, t, depth, 0, op)
    ensures Skips(f + (" " + ("IN" + (" " + b))), t, depth, 0, op)
  {
    var y := " " + ("IN" + (" " + b));
    NoConnBefore(b + t);
    SkipsMiddle("IN", b, t, depth, op);
    SkipsPlain(f, y + t, depth, 0, op);
    SkipsAppend(f, y, t, depth, 0, op);
  }

  function ConnName(op: Conn): string {
    match op case And => "AND" case Or => "OR"
  }

  lemma ConnTextIs(op: Conn, y: string)
    ensures ConnText(op) + y == " " + (ConnName(op) + (" " + y))
  {
  }

  lemma ConnNameIsPlain(op: Conn)
    ensures AllPlain(ConnName(op))
  {
  }

  lemma SkipsConn(op0: Conn, y: string, t: string, depth: nat, op: Conn)
    requires depth > 0 && Skips(y, t, depth, 0, op)
    ensures Skips(ConnText(op0) + y, t, depth, 0, op)
  {
    ConnNameIsPlain(op0);
    SkipsWordGap(ConnName(op0), y, t, depth, 0, op);
    SkipsGapThen(ConnName(op0) + (" " + y), t, depth, 0, op);
    ConnTextIs(op0, y);
  }

  /** Inside parentheses a connective does not split. */
  lemma SkipsInside(op0: Conn, x: string, y: string, t: string, depth: nat, op: Conn)
    requires depth > 0
    requires Skips(x, (ConnText(op0) + y) + t, depth, 0, op) && Skips(y, t, depth, 0, op)
    ensures Skips(x + (ConnText(op0) + y), t, depth, 0, op)
  {
    SkipsConn(op0, y, t, depth, op);
    SkipsAppend(x, ConnText(op0) + y, t, depth, 0, op);
  }

  lemma SkipsExists(f: string, t: string, depth: nat, op: Conn)
    requires SafeName(f) && Boundary(t)
    ensures Skips("EXISTS " + f, t, depth, 0, op)
  {
    SkipsPlain(f, t, depth, 0, op);
    NoConnBeforeName(f, t);
    SkipsAfterExists(f, t, depth, op);
  }

  lemma SkipsAfterExists(x: string, t: string, depth: nat, op: Conn)
    requires Skips(x, t, depth, 0, op) && MatchConn(" " + (x + t)) == None
    ensures Skips("EXISTS " + x, t, depth, 0, op)
  {
    ExistsIsPlain();
    SkipsWordGap("EXISTS", x, t, depth, 0, op);
    assert "EXISTS " + x == "EXISTS" + (" " + x);
  }

  lemma ExistsIsPlain()
    ensures AllPlain("EXISTS")
  {
  }

  lemma SkipsNot(x: string, t: string, depth: nat, op: Conn)
    requires Skips(x, ")" + t, depth + 1, 0, op)
    ensures Skips("(" + ("NOT " + x) + ")", t, depth, 0, op)
  {
    SkipsWordGap("NOT", x, ")" + t, depth + 1, 0, op);
    assert "NOT " + x == "NOT" + (" " + x);
    SkipsParens("NOT " + x, t, depth, op);
  }

  /** The splitter passes over a printed tree, whatever level it stands at. */
  lemma {:induction false} SkipsPrint(e: Ast, t: string, depth: nat, op: Conn)
    requires Safe(e) && Boundary(t)
    ensures Skips(Print(e), t, depth, 0, op)
  {
    match e
    case Const(v) => SkipsPlain(if v then "true" else "false", t, depth, 0, op);
    case Ident(n) => SkipsPlain(n, t, depth, 0, op);
    case Exists(f) => SkipsExists(f, t, depth, op);
    case Compare(c, l, r) => SkipsCompare(l, c, r, t, depth, op);
    case Member(f, vs) => SkipsMember(f, vs, t, depth, op);
    case Not(x) =>
      SkipsPrint(x, ")" + t, depth + 1, op);
      SkipsNot(Print(x), t, depth, op);
    case Bin(op0, l, r) =>
      var u := ")" + t;
      SkipsPrint(r, u, depth + 1, op);
      SkipsPrint(l, (ConnText(op0) + Print(r)) + u, depth + 1, op);
      SkipsInside(op0, Print(l), Print(r), u, depth + 1, op);
      SkipsParens(Print(l) + (ConnText(op0) + Print(r)), t, depth, op);
  }
}

module VelAtoms {
  import opened Options
  import opened Text
  import opened VelAst
  import opened VelScan
  import opened VelParse
  import opened VelSkip

  // ---- operands and lists ----

  lemma FieldRead(p: string)
    requires SafeOperand(Operand.Field(p))
    ensures ParseOperand(p) == Ok(Operand.Field(p))
  {
    OperandShape(Operand.Field(p));
    TrimTight(p);
    assert DigitRun(p) == 0;
  }

  lemma NumberRead(k: string)
    requires SafeOperand(Lit(Num(k)))
    ensures ParseOperand(k) == Ok(Lit(Num(k)))
  {
    OperandShape(Lit(Num(k)));
    TrimTight(k);
    NumberChars(k);
  }

  lemma StringRead(t: string)
    requires SafeOperand(Lit(Str(t)))
    ensures ParseOperand("\"" + t + "\"") == Ok(Lit(Str(t)))
  {
    OperandShape(Lit(Str(t)));
    TrimTight("\"" + t + "\"");
    assert ("\"" + t + "\"")[1..|t| + 1] == t;
  }

  lemma OperandRoundTrip(o: Operand)
    requires SafeOperand(o)
    ensures ParseOperand(OperandText(o)) == Ok(o)
  {
    match o
    case Field(p) => FieldRead(p);
    case Lit(Num(k)) => NumberRead(k);
    case Lit(Str(t)) => StringRead(t);
    case Lit(Bool(_)) =>
      OperandShape(o);
      TrimTight(OperandText(o));
  }

  lemma ElementRoundTrip(o: Operand)
    requires SafeElement(o)
    ensures ParseListOperand(OperandText(o)) == Ok(o)
  {
    OperandRoundTrip(o);
  }

  function Texts(vs: seq<Operand>): seq<string> {
    if vs == [] then [] else [OperandText(vs[0])] + Texts(vs[1..])
  }

  ghost predicate CsvSkips(x: string, t: string) {
    forall cur :: CsvFrom(x + t, cur, None) == CsvFrom(t, cur + x, None)
  }

  lemma {:induction false} CsvSkipsPlain(x: string, t: string)
    requires forall i :: 0 <= i < |x| ==> !QuoteChar(x[i]) && x[i] != ','
    ensures CsvSkips(x, t)
  {
    forall cur ensures CsvFrom(x + t, cur, None) == CsvFrom(t, cur + x, None) {
      if x == "" {
        assert x + t == t && cur + x == cur;
      } else {
        assert (x + t)[1..] == x[1..] + t;
        CsvSkipsPlain(x[1..], t);
        assert (cur + [x[0]]) + x[1..] == cur + x;
      }
    }
  }

  lemma {:induction false} CsvToQuote(x: string, t: string, cur: string)
    requires forall i :: 0 <= i < |x| ==> x[i] != '"'
    ensures CsvFrom(x + ("\"" + t), cur, Some('"')) == CsvFrom(t, cur + (x + "\""), None)
  {
    var s := x + ("\"" + t);
    if x == "" {
      assert s[1..] == t;
      assert cur + (x + "\"") == cur + "\"";
    } else {
      assert s[1..] == x[1..] + ("\"" + t);
      CsvToQuote(x[1..], t, cur + [x[0]]);
      assert (cur + [x[0]]) + (x[1..] + "\"") == cur + (x + "\"");
    }
  }

  lemma CsvSkipsOperand(o: Operand, t: string)
    requires SafeOperand(o)
    ensures CsvSkips(OperandText(o), t)
  {
    match o
    case Lit(Str(x)) =>
      assert (("\"" + x + "\"") + t)[1..] == x + ("\"" + t);
      forall cur ensures CsvFrom(OperandText(o) + t, cur, None) == CsvFrom(t, cur + OperandText(o), None) {
        CsvToQuote(x, t, cur + "\"");
        assert (cur + "\"") + (x + "\"") == cur + OperandText(o);
      }
    case Lit(Num(k)) => NumberChars(k); CsvSkipsPlain(k, t);
    case _ => CsvSkipsPlain(OperandText(o), t);
  }

  lemma TrimGap(x: string)
    requires Tight(x) && x != ""
    ensures Trim(" " + x) == x
  {
    assert (" " + x)[1..] == x;
    TrimTight(x);
  }

  lemma CsvPassesOperand(o: Operand, u: string, cur: string)
    requires SafeOperand(o) && (cur == "" || cur == " ")
    ensures CsvFrom(cur + (OperandText(o) + u), "", None) == CsvFrom(u, cur + OperandText(o), None)
    ensures Trim(cur + OperandText(o)) == OperandText(o) != ""
  {
    var x := OperandText(o);
    OperandShape(o);
    CsvSkipsOperand(o, u);
    if cur == "" {
      assert "" + (x + u) == x + u && "" + x == x;
      TrimTight(x);
    } else {
      assert (" " + (x + u))[1..] == x + u;
      assert "" + [' '] == cur;
      assert cur + x == " " + x;
      TrimGap(x);
    }
  }

  lemma CommaStep(x: string, rest: string)
    ensures x + ", " + rest == x + (", " + rest)
    ensures (", " + rest)[1..] == " " + rest
  {
  }

  lemma ListStep(vs: seq<Operand>)
    requires |vs| > 1
    ensures ListText(vs) == OperandText(vs[0]) + (", " + ListText(vs[1..]))
    ensures (", " + ListText(vs[1..]))[1..] == " " + ListText(vs[1..])
  {
    CommaStep(OperandText(vs[0]), ListText(vs[1..]));
  }

  /** A list is cut exactly at the commas between its elements. */
  lemma {:induction false} CsvOfList(vs: seq<Operand>, cur: string)
    requires forall i :: 0 <= i < |vs| ==> SafeOperand(vs[i])
    requires vs != [] && (cur == "" || cur == " ")
    ensures CsvFrom(cur + ListText(vs), "", None) == Texts(vs)
  {
    if |vs| == 1 {
      CsvPassesOperand(vs[0], "", cur);
      assert OperandText(vs[0]) + "" == ListText(vs);
      assert Texts(vs) == [OperandText(vs[0])] + Texts([]) by { assert vs[1..] == []; }
    } else {
      ListStep(vs);
      CsvPassesOperand(vs[0], ", " + ListText(vs[1..]), cur);
      CsvOfList(vs[1..], " ");
    }
  }

  lemma {:induction false} ParseTexts(vs: seq<Operand>)
    requires forall i :: 0 <= i < |vs| ==> ParseListOperand(OperandText(vs[i])) == Ok(vs[i])
    ensures ParseList(Texts(vs)) == Ok(vs)
  {
    if vs != [] {
      assert Texts(vs)[1..] == Texts(vs[1..]);
      ParseTexts(vs[1..]);
      assert [vs[0]] + vs[1..] == vs;
    }
  }

  lemma ListRoundTrip(vs: seq<Operand>)
    requires forall i :: 0 <= i < |vs| ==> SafeElement(vs[i])
    ensures ParseList(SplitCsv(ListText(vs))) == Ok(vs)
  {
    if vs != [] {
      assert "" + ListText(vs) == ListText(vs);
      CsvOfList(vs, "");
    }
    forall i | 0 <= i < |vs| ensures ParseListOperand(OperandText(vs[i])) == Ok(vs[i]) { ElementRoundTrip(vs[i]); }
    ParseTexts(vs);
  }

  lemma {:induction false} ListShape(vs: seq<Operand>)
    requires forall i :: 0 <= i < |vs| ==> SafeElement(vs[i])
    ensures forall i :: 0 <= i < |ListText(vs)| ==>
              var c := ListText(vs)[i]; !OperatorChar(c) && !GroupChar(c) && !IsLineEnd(c)
  {
    if vs != [] {
      OperandShape(vs[0]);
      ListShape(vs[1..]);
    }
  }

  // ---- the three patterns ----

  lemma MemberTailEnds(t: string)
    requires MemberTail(t).Some?
    ensures t != "" && IsSpace(t[0]) && t[|t| - 1] == ']'
  {
    var u := t[SpaceRun(t) + 2..];
    var v := u[SpaceRun(u)..];
    assert v[|v| - 1] == u[|u| - 1] == t[|t| - 1];
  }

  lemma {:induction false} NoMember(s: string, k: nat)
    requires 1 <= k && (s != "" ==> s[|s| - 1] != ']')
    ensures FindMember(s, k) == None
    decreases |s| - k
  {
    if k < |s| && !IsLineEnd(s[k - 1]) {
      assert MemberTail(s[k..]).None? by {
        if MemberTail(s[k..]).Some? { MemberTailEnds(s[k..]); }
      }
      NoMember(s, k + 1);
    }
  }

  lemma MemberTailNeedsGap(t: string)
    requires t != "" && !IsSpace(t[0])
    ensures MemberTail(t) == None
  {
  }

  lemma MemberStep(s: string, k: nat)
    requires 1 <= k < |s| && !IsLineEnd(s[k - 1])
    ensures FindMember(s, k)
         == if MemberTail(s[k..]).Some? then Some(MemberMatch(s[..k], MemberTail(s[k..]).value))
            else FindMember(s, k + 1)
  {
  }

  lemma {:induction false} MemberAfterName(f: string, t: string, k: nat, list: string)
    requires AllPlain(f) && 1 <= k <= |f| && MemberTail(t) == Some(list)
    ensures FindMember(f + t, k) == Some(MemberMatch(f, list))
    decreases |f| - k
  {
    var s := f + t;
    assert t != "" by { MemberTailEnds(t); }
    assert Plain(s[k - 1]) by { assert s[k - 1] == f[k - 1]; }
    MemberStep(s, k);
    if k == |f| {
      assert s[k..] == t && s[..k] == f;
    } else {
      assert s[k..][0] == f[k];
      MemberTailNeedsGap(s[k..]);
      MemberAfterName(f, t, k + 1, list);
    }
  }

  lemma MemberTailOf(x: string)
    requires OneLine(x)
    ensures MemberTail(" IN [" + (x + "]")) == Some(x)
  {
    var t := " IN [" + (x + "]");
    GapRun("IN [" + (x + "]"));
    assert t == " " + ("IN [" + (x + "]"));
    assert t[1..] == "IN [" + (x + "]");
    var u := t[3..];
    GapRun("[" + (x + "]"));
    assert u == " " + ("[" + (x + "]"));
    assert u[1..] == "[" + (x + "]");
    assert ("[" + (x + "]"))[1..|x| + 1] == x;
  }

  lemma NoOperatorTail(u: string, c: CmpOp)
    requires u == "" || !OperatorChar(u[0])
    ensures OperatorTail(u, c) == None
  {
    if StartsWith(u, CmpText(c)) { HeadOfPrefix(u, CmpText(c)); }
  }

  lemma CompareTailNeedsOperator(t: string)
    requires SpaceRun(t) < |t| ==> !OperatorChar(t[SpaceRun(t)])
    ensures CompareTail(t) == None
  {
    var u := t[SpaceRun(t)..];
    NoOperatorTail(u, Le);
    NoOperatorTail(u, Ge);
    NoOperatorTail(u, Eq);
    NoOperatorTail(u, Ne);
    NoOperatorTail(u, Lt);
    NoOperatorTail(u, Gt);
  }

  lemma {:induction false} NoCompare(s: string, k: nat)
    requires 1 <= k && forall i :: 0 <= i < |s| ==> !OperatorChar(s[i])
    ensures FindCompare(s, k) == None
    decreases |s| - k
  {
    if k < |s| && !IsLineEnd(s[k - 1]) {
      CompareTailNeedsOperator(s[k..]);
      NoCompare(s, k + 1);
    }
  }

  lemma {:induction false} SpaceRunInside(x: string, t: string)
    requires x != "" && !IsSpace(x[|x| - 1])
    ensures SpaceRun(x + t) < |x|
  {
    if IsSpace(x[0]) {
      assert (x + t)[1..] == x[1..] + t;
      SpaceRunInside(x[1..], t);
    }
  }

  lemma FindCompareSkips(s: string, k: nat)
    requires 1 <= k < |s| && !IsLineEnd(s[k - 1]) && CompareTail(s[k..]).None?
    ensures FindCompare(s, k) == FindCompare(s, k + 1)
  {
  }

  lemma NoCompareInside(x: string, t: string, k: nat)
    requires x != "" && Tight(x) && 1 <= k < |x|
    requires forall i :: 0 <= i < |x| ==> !OperatorChar(x[i]) && !IsLineEnd(x[i])
    ensures CompareTail((x + t)[k..]).None? && !IsLineEnd((x + t)[k - 1])
  {
    var s := x + t;
    assert s[k - 1] == x[k - 1];
    assert s[k..] == x[k..] + t;
    SpaceRunInside(x[k..], t);
    assert s[k..][SpaceRun(s[k..])] == x[k + SpaceRun(s[k..])];
    CompareTailNeedsOperator(s[k..]);
  }

  lemma {:induction false} CompareAfterOperand(x: string, t: string, k: nat)
    requires x != "" && Tight(x) && 1 <= k <= |x| && CompareTail(t).Some?
    requires forall i :: 0 <= i < |x| ==> !OperatorChar(x[i]) && !IsLineEnd(x[i])
    ensures FindCompare(x + t, k) == Some(CompareMatch(x, CompareTail(t).value.0, CompareTail(t).value.1))
    decreases |x| - k
  {
    var s := x + t;
    if k == |x| {
      assert s[k..] == t && s[..k] == x && s[k - 1] == x[k - 1];
      assert t != "";
    } else {
      NoCompareInside(x, t, k);
      FindCompareSkips(s, k);
      CompareAfterOperand(x, t, k + 1);
    }
  }

  lemma StartsWithAppend(a: string, b: string)
    ensures StartsWith(a + b, a)
  {
  }

  /** An alternative tried before the right one does not match. */
  lemma EarlierOperator(c: CmpOp, d: CmpOp, r: string)
    requires c != d && |CmpText(d)| >= |CmpText(c)| && r != "" && r[0] == ' '
    ensures OperatorTail(CmpText(c) + r, d) == None
  {
    var u := CmpText(c) + r;
    if StartsWith(u, CmpText(d)) {
      SecondOfPrefix(u, CmpText(d));
      HeadOfPrefix(u, CmpText(d));
    }
  }

  lemma SecondOfPrefix(u: string, w: string)
    requires StartsWith(u, w)
    ensures |w| > 1 ==> |u| > 1 && u[1] == w[1]
  {
    if |w| > 1 { assert u[..|w|][1] == u[1]; }
  }

  lemma RightOperator(c: CmpOp, r: string)
    requires r != "" && Tight(r) && OneLine(r)
    ensures OperatorTail(CmpText(c) + (" " + r), c) == Some((c, r))
  {
    var u := CmpText(c) + (" " + r);
    assert StartsWith(u, CmpText(c)) by { StartsWithAppend(CmpText(c), " " + r); }
    assert u[|CmpText(c)|..] == " " + r;
    assert (" " + r)[1..] == r;
    assert TrimLeft(" " + r) == TrimLeft(r) == r;
  }

  /** Place of an operator among the alternatives of the pattern. */
  function Rank(c: CmpOp): nat {
    match c case Le => 0 case Ge => 1 case Eq => 2 case Ne => 3 case Lt => 4 case Gt => 5
  }

  lemma FirstMatch(t: string, c: CmpOp)
    requires var u := t[SpaceRun(t)..];
             OperatorTail(u, c).Some? && forall d: CmpOp :: Rank(d) < Rank(c) ==> OperatorTail(u, d).None?
    ensures CompareTail(t) == OperatorTail(t[SpaceRun(t)..], c)
  {
    var u := t[SpaceRun(t)..];
    if c != Le { assert Rank(Le) < Rank(c); }
    if c != Le && c != Ge { assert Rank(Ge) < Rank(c); }
    if c == Ne || c == Lt || c == Gt { assert Rank(Eq) < Rank(c); }
    if c == Lt || c == Gt { assert Rank(Ne) < Rank(c); }
    if c == Gt { assert Rank(Lt) < Rank(c); }
  }

  lemma CompareTailOf(c: CmpOp, r: string)
    requires r != "" && Tight(r) && OneLine(r)
    ensures CompareTail(" " + (CmpText(c) + (" " + r))) == Some((c, r))
  {
    var g := " " + r;
    var u := CmpText(c) + g;
    CmpShape(c);
    GapRun(u);
    RightOperator(c, r);
    assert (" " + u)[SpaceRun(" " + u)..] == u;
    forall d: CmpOp | Rank(d) < Rank(c) ensures OperatorTail(u, d).None? { EarlierOperator(c, d, g); }
    FirstMatch(" " + u, c);
  }

  // ---- atoms ----

  /** A safe name is no keyword, so no keyword pattern applies to text that starts with it. */
  lemma NameIsNoKeyword(w: string, t: string, k: string)
    requires FieldPath(w) && !IsWord(w, k)
    requires t == "" || t[0] == ' '
    requires forall i :: 0 <= i < |k| ==> k[i] != ' '
    ensures !(WordAt(w + t, k) && SpaceRun((w + t)[|k|..]) > 0)
  {
    var s := w + t;
    assert |w| < |s| ==> s[|w|] == t[0];
    assert |w| < |k| ==> !WordAt(s, k);
    if WordAt(s, k) {
      if |w| == |k| {
        SameWord(w, t, k);
      } else if |w| > |k| {
        assert s[|k|..][0] == w[|k|];
      }
    }
  }

  predicate KeywordFree(s: string) {
    !NotPrefix(s) && s != "" && s[0] != '!' && !(WordAt(s, "exists") && SpaceRun(s[6..]) > 0)
  }

  lemma NameIsKeywordFree(w: string, t: string)
    requires SafeName(w) && (t == "" || t[0] == ' ')
    ensures KeywordFree(w + t)
  {
    NameIsNoKeyword(w, t, "not");
    NameIsNoKeyword(w, t, "exists");
    assert (w + t)[0] == w[0];
  }

  lemma OperandIsKeywordFree(o: Operand, t: string)
    requires SafeOperand(o) && t != "" && t[0] == ' '
    ensures KeywordFree(OperandText(o) + t)
  {
    var x := OperandText(o);
    assert x != "" by { OperandShape(o); }
    assert (x + t)[0] == x[0];
    match o
    case Field(p) => NameIsKeywordFree(p, t);
    case Lit(Num(k)) => NumberChars(k);
    case _ =>
  }

  lemma ComparisonForm(s: string, m: CompareMatch)
    requires KeywordFree(s) && FindMember(s, 1) == None && FindCompare(s, 1) == Some(m)
    ensures ParseAtom(s) == ParseComparison(m)
  {
  }

  lemma ComparisonFound(x: string, c: CmpOp, y: string)
    requires x != "" && y != "" && Tight(x) && Tight(y) && OneLine(y) && y[|y| - 1] != ']'
    requires forall i :: 0 <= i < |x| ==> !OperatorChar(x[i]) && !IsLineEnd(x[i])
    ensures var s := x + (" " + (CmpText(c) + (" " + y)));
            FindMember(s, 1) == None && FindCompare(s, 1) == Some(CompareMatch(x, c, y))
  {
    CompareTailOf(c, y);
    LastOfFour(x, " ", CmpText(c), " ", y);
    ComparisonAt(x, " " + (CmpText(c) + (" " + y)), c, y);
  }

  lemma ComparisonAt(x: string, t: string, c: CmpOp, y: string)
    requires x != "" && Tight(x) && CompareTail(t) == Some((c, y)) && (x + t)[|x + t| - 1] != ']'
    requires forall i :: 0 <= i < |x| ==> !OperatorChar(x[i]) && !IsLineEnd(x[i])
    ensures FindMember(x + t, 1) == None && FindCompare(x + t, 1) == Some(CompareMatch(x, c, y))
  {
    CompareAfterOperand(x, t, 1);
    NoMember(x + t, 1);
  }

  lemma LastOfFour(a: string, b: string, c: string, d: string, y: string)
    requires y != ""
    ensures var s := a + (b + (c + (d + y))); s != "" && s[|s| - 1] == y[|y| - 1]
  {
  }

  lemma CompareAtom(c: CmpOp, l: Operand, r: Operand)
    requires SafeOperand(l) && SafeOperand(r)
    ensures var s := OperandText(l) + (" " + (CmpText(c) + (" " + OperandText(r))));
            KeywordFree(s) && ParseAtom(s) == Ok(Compare(c, l, r))
  {
    var x, y := OperandText(l), OperandText(r);
    var s := x + (" " + (CmpText(c) + (" " + y)));
    OperandIsKeywordFree(l, " " + (CmpText(c) + (" " + y)));
    assert FindMember(s, 1) == None && FindCompare(s, 1) == Some(CompareMatch(x, c, y)) by {
      OperandShape(l);
      OperandShape(r);
      ComparisonFound(x, c, y);
    }
    ComparisonForm(s, CompareMatch(x, c, y));
    OperandRoundTrip(l);
    OperandRoundTrip(r);
  }

  lemma NamePlain(f: string)
    requires SafeName(f)
    ensures f != "" && AllPlain(f) && Tight(f)
    ensures forall i :: 0 <= i < |f| ==> !OperatorChar(f[i]) && !GroupChar(f[i]) && !IsLineEnd(f[i])
  {
  }

  lemma MemberAtom(f: string, vs: seq<Operand>)
    requires SafeName(f) && forall i :: 0 <= i < |vs| ==> SafeElement(vs[i])
    ensures var s := Body(Member(f, vs)); KeywordFree(s) && ParseAtom(s) == Ok(Member(f, vs))
  {
    var t := " IN [" + (ListText(vs) + "]");
    NameIsKeywordFree(f, t);
    ListShape(vs);
    MemberTailOf(ListText(vs));
    NamePlain(f);
    MemberAfterName(f, t, 1, ListText(vs));
    TrimTight(f);
    ListRoundTrip(vs);
  }

  lemma ExistsForm(s: string, f: string)
    requires WordAt(s, "exists") && s[6..] == " " + f && Tight(f) && f != "" && OneLine(f)
    ensures ParseAtom(s) == Ok(Exists(f))
  {
    GapRun(f);
    TrimGap(f);
    assert (" " + f)[1..] == f;
    assert TrimLeft(" " + f) == TrimLeft(f) == f;
  }

  lemma ExistsAtom(f: string)
    requires SafeName(f)
    ensures ParseAtom("EXISTS " + f) == Ok(Exists(f)) && !NotPrefix("EXISTS " + f)
  {
    var s := "EXISTS " + f;
    NamePlain(f);
    assert s[6..] == " " + f;
    assert Lower(s[0]) == 'e';
    ExistsForm(s, f);
  }

  lemma IdentAtom(n: string)
    requires SafeName(n)
    ensures KeywordFree(n) && ParseAtom(n) == Ok(Ident(n))
  {
    NamePlain(n);
    assert n + "" == n;
    NameIsKeywordFree(n, "");
    NoMember(n, 1);
    NoCompare(n, 1);
  }
}

module VelRoundTrip {
  import opened Options
  import opened Text
  import opened VelAst
  import opened VelScan
  import opened VelParse
  import opened VelSkip
  import opened VelAtoms

  // ---- parentheses ----

  /** Reading `x` leaves the parenthesis count where it was and never takes it below its start. */
  ghost predicate Neutral(x: string) {
    forall t: string, d: nat :: BalancedFrom(x + t, d) == BalancedFrom(t, d)
  }

  lemma {:induction false} NeutralFlat(x: string)
    requires forall i :: 0 <= i < |x| ==> x[i] != '(' && x[i] != ')'
    ensures Neutral(x)
  {
    forall t: string, d: nat ensures BalancedFrom(x + t, d) == BalancedFrom(t, d) {
      if x == "" {
        assert x + t == t;
      } else {
        NeutralFlat(x[1..]);
        assert (x + t)[1..] == x[1..] + t;
      }
    }
  }

  lemma NeutralAppend(x: string, y: string)
    requires Neutral(x) && Neutral(y)
    ensures Neutral(x + y)
  {
    forall t: string, d: nat ensures BalancedFrom((x + y) + t, d) == BalancedFrom(t, d) {
      assert (x + y) + t == x + (y + t);
    }
  }

  lemma NeutralParens(x: string)
    requires Neutral(x)
    ensures Neutral("(" + x + ")")
  {
    forall t: string, d: nat ensures BalancedFrom(("(" + x + ")") + t, d) == BalancedFrom(t, d) {
      assert (("(" + x + ")") + t)[1..] == x + (")" + t);
      assert (")" + t)[1..] == t;
    }
  }

  lemma NeutralNot(x: string)
    requires Neutral(x)
    ensures Neutral("NOT " + x) && Neutral("(" + ("NOT " + x) + ")")
  {
    NeutralFlat("NOT ");
    NeutralAppend("NOT ", x);
    NeutralParens("NOT " + x);
  }

  lemma NeutralBin(x: string, op: Conn, y: string)
    requires Neutral(x) && Neutral(y)
    ensures Neutral(x + (ConnText(op) + y)) && Neutral("(" + (x + (ConnText(op) + y)) + ")")
  {
    NeutralFlat(ConnText(op));
    NeutralAppend(ConnText(op), y);
    NeutralAppend(x, ConnText(op) + y);
    NeutralParens(x + (ConnText(op) + y));
  }

  lemma NeutralFour(a: string, b: string, c: string, d: string)
    requires Neutral(a) && Neutral(b) && Neutral(c) && Neutral(d)
    ensures Neutral(a + (b + (c + d)))
  {
    NeutralAppend(c, d);
    NeutralAppend(b, c + d);
    NeutralAppend(a, b + (c + d));
  }

  lemma NeutralCompare(l: Operand, c: CmpOp, r: Operand)
    requires SafeOperand(l) && SafeOperand(r)
    ensures Neutral(OperandText(l) + (" " + (CmpText(c) + (" " + OperandText(r)))))
  {
    OperandShape(l);
    OperandShape(r);
    NeutralFlat(OperandText(l));
    NeutralFlat(OperandText(r));
    NeutralFlat(CmpText(c));
    NeutralFlat(" ");
    NeutralAppend(" ", OperandText(r));
    NeutralFour(OperandText(l), " ", CmpText(c), " " + OperandText(r));
  }

  predicate NoParens(x: string) {
    forall i :: 0 <= i < |x| ==> x[i] != '(' && x[i] != ')'
  }

  lemma NoParensFour(a: string, b: string, c: string, d: string)
    requires NoParens(a) && NoParens(b) && NoParens(c) && NoParens(d)
    ensures NoParens(a + (b + (c + d)))
  {
  }

  lemma MemberNoParens(f: string, vs: seq<Operand>)
    requires SafeName(f) && forall i :: 0 <= i < |vs| ==> SafeElement(vs[i])
    ensures NoParens(f) && NoParens(ListText(vs))
  {
    NamePlain(f);
    ListShape(vs);
  }

  lemma NeutralMemberText(f: string, list: string)
    requires NoParens(f) && NoParens(list)
    ensures Neutral(f + (" IN [" + (list + "]")))
  {
    NoParensFour(f, " IN [", list, "]");
    NeutralFlat(f + (" IN [" + (list + "]")));
  }

  lemma NeutralMember(f: string, vs: seq<Operand>)
    requires SafeName(f) && forall i :: 0 <= i < |vs| ==> SafeElement(vs[i])
    ensures Neutral(f + (" IN [" + (ListText(vs) + "]")))
  {
    MemberNoParens(f, vs);
    NeutralMemberText(f, ListText(vs));
  }

  lemma {:induction false} NeutralPrint(e: Ast)
    requires Safe(e)
    ensures Neutral(Body(e)) && Neutral(Print(e))
  {
    match e
    case Not(x) =>
      NeutralPrint(x);
      NeutralNot(Print(x));
    case Bin(op, l, r) =>
      NeutralPrint(l);
      NeutralPrint(r);
      NeutralBin(Print(l), op, Print(r));
    case Compare(c, l, r) => NeutralCompare(l, c, r);
    case Member(f, vs) => NeutralMember(f, vs);
    case _ => NeutralFlat(Body(e));
  }

  // ---- malformed comparison operators ----

  /** `x` holds no malformed operator, alone or together with what follows. */
  ghost predicate Clean(x: string) {
    forall t :: BadOperators(x + t) == BadOperators(t)
  }

  lemma {:induction false} CleanFlat(x: string)
    requires forall i :: 0 <= i < |x| ==> !OperatorChar(x[i])
    ensures Clean(x)
  {
    forall t ensures BadOperators(x + t) == BadOperators(t) {
      if x == "" {
        assert x + t == t;
      } else {
        CleanFlat(x[1..]);
        assert (x + t)[1..] == x[1..] + t;
        NoBadHead(x + t);
      }
    }
  }

  lemma NoBadHead(s: string)
    requires s != "" && !OperatorChar(s[0])
    ensures !BadOperatorAt(s)
  {
    if StartsWith(s, "<<") { HeadOfPrefix(s, "<<"); }
    if StartsWith(s, ">>") { HeadOfPrefix(s, ">>"); }
    if StartsWith(s, "===") { HeadOfPrefix(s, "==="); }
    if StartsWith(s, "!==") { HeadOfPrefix(s, "!=="); }
    if StartsWith(s, "<==") { HeadOfPrefix(s, "<=="); }
    if StartsWith(s, ">==") { HeadOfPrefix(s, ">=="); }
  }

  lemma CleanAppend(x: string, y: string)
    requires Clean(x) && Clean(y)
    ensures Clean(x + y)
  {
    forall t ensures BadOperators((x + y) + t) == BadOperators(t) {
      assert (x + y) + t == x + (y + t);
    }
  }

  /** One operator character, then something that is no operator. */
  lemma OperatorAlone(a: char, r: string)
    requires OperatorChar(a) && r != "" && r[0] == ' ' && TrimLeft(r) != "" && !OperatorChar(TrimLeft(r)[0])
    ensures !BadOperatorAt([a] + r)
  {
    var s := [a] + r;
    assert s[1..] == r;
    if StartsWith(s, "<<") { SecondOfPrefix(s, "<<"); }
    if StartsWith(s, ">>") { SecondOfPrefix(s, ">>"); }
    if StartsWith(s, "===") { SecondOfPrefix(s, "==="); }
    if StartsWith(s, "!==") { SecondOfPrefix(s, "!=="); }
    if StartsWith(s, "<==") { SecondOfPrefix(s, "<=="); }
    if StartsWith(s, ">==") { SecondOfPrefix(s, ">=="); }
    if StartsWith(TrimLeft(r), "<=") { HeadOfPrefix(TrimLeft(r), "<="); }
    if StartsWith(TrimLeft(r), ">=") { HeadOfPrefix(TrimLeft(r), ">="); }
  }

  lemma ThirdOfPrefix(u: string, w: string)
    requires StartsWith(u, w) && |w| > 2
    ensures |u| > 2 && u[2] == w[2]
  {
    assert u[..|w|][2] == u[2];
  }

  lemma OperatorPair(a: char, r: string)
    requires OperatorChar(a) && r != "" && r[0] == ' '
    ensures !BadOperatorAt([a] + ("=" + r))
  {
    var s := [a] + ("=" + r);
    assert s[1..] == "=" + r && s[2] == ' ';
    assert TrimLeft(s[1..]) == s[1..];
    if StartsWith(s, "<<") { SecondOfPrefix(s, "<<"); }
    if StartsWith(s, ">>") { SecondOfPrefix(s, ">>"); }
    if StartsWith(s, "===") { ThirdOfPrefix(s, "==="); }
    if StartsWith(s, "!==") { ThirdOfPrefix(s, "!=="); }
    if StartsWith(s, "<==") { ThirdOfPrefix(s, "<=="); }
    if StartsWith(s, ">==") { ThirdOfPrefix(s, ">=="); }
    if StartsWith(s[1..], "<=") { HeadOfPrefix(s[1..], "<="); }
    if StartsWith(s[1..], ">=") { HeadOfPrefix(s[1..], ">="); }
  }

  lemma OperatorThen(c: CmpOp, g: string)
    requires g != "" && g[0] == ' ' && TrimLeft(g) != "" && !OperatorChar(TrimLeft(g)[0])
    ensures BadOperators(CmpText(c) + g) == BadOperators(g)
  {
    var w := CmpText(c);
    if |w| == 1 {
      assert w == [w[0]];
      OneOperator(w[0], g);
    } else {
      assert w == [w[0], '='];
      TwoOperators(w[0], g);
    }
  }

  lemma OneOperator(a: char, g: string)
    requires OperatorChar(a) && g != "" && g[0] == ' ' && TrimLeft(g) != "" && !OperatorChar(TrimLeft(g)[0])
    ensures BadOperators([a] + g) == BadOperators(g)
  {
    OperatorAlone(a, g);
    assert ([a] + g)[1..] == g;
  }

  lemma TwoOperators(a: char, g: string)
    requires OperatorChar(a) && g != "" && g[0] == ' ' && TrimLeft(g) != "" && !OperatorChar(TrimLeft(g)[0])
    ensures BadOperators([a, '='] + g) == BadOperators(g)
  {
    var s := ['='] + g;
    assert "=" == ['='];
    assert [a, '='] + g == [a] + s && ([a] + s)[1..] == s;
    OperatorPair(a, g);
    OneOperator('=', g);
  }

  lemma TrimGapBefore(r: string, t: string)
    requires r != "" && !IsSpace(r[0])
    ensures TrimLeft((" " + r) + t) == r + t && (r + t)[0] == r[0]
  {
    assert ((" " + r) + t)[1..] == r + t;
  }

  lemma CleanOperator(c: CmpOp, r: string)
    requires Clean(" " + r) && r != "" && !OperatorChar(r[0]) && !IsSpace(r[0])
    ensures Clean(CmpText(c) + (" " + r))
  {
    forall t ensures BadOperators((CmpText(c) + (" " + r)) + t) == BadOperators(t) { CleanOperatorBefore(c, r, t); }
  }

  lemma CleanOperatorBefore(c: CmpOp, r: string, t: string)
    requires Clean(" " + r) && r != "" && !OperatorChar(r[0]) && !IsSpace(r[0])
    ensures BadOperators((CmpText(c) + (" " + r)) + t) == BadOperators(t)
  {
    var w, g := CmpText(c), " " + r;
    TrimGapBefore(r, t);
    OperatorThen(c, g + t);
    assert (w + g) + t == w + (g + t);
  }

  lemma CleanWrap(x: string, y: string, z: string)
    requires Clean(x) && Clean(y) && Clean(z)
    ensures Clean(x + y + z)
  {
    CleanAppend(x, y);
    CleanAppend(x + y, z);
  }

  lemma CleanNot(x: string)
    requires Clean(x)
    ensures Clean("(" + ("NOT " + x) + ")")
  {
    CleanFlat("NOT ");
    CleanFlat("(");
    CleanFlat(")");
    CleanAppend("NOT ", x);
    CleanWrap("(", "NOT " + x, ")");
  }

  lemma CleanBin(x: string, op: Conn, y: string)
    requires Clean(x) && Clean(y)
    ensures Clean(x + (ConnText(op) + y)) && Clean("(" + (x + (ConnText(op) + y)) + ")")
  {
    CleanFlat(ConnText(op));
    CleanFlat("(");
    CleanFlat(")");
    CleanAppend(ConnText(op), y);
    CleanAppend(x, ConnText(op) + y);
    CleanWrap("(", x + (ConnText(op) + y), ")");
  }

  lemma CleanThree(a: string, b: string, c: string)
    requires Clean(a) && Clean(b) && Clean(c)
    ensures Clean(a + (b + c))
  {
    CleanAppend(b, c);
    CleanAppend(a, b + c);
  }

  lemma FlatMember(f: string, vs: seq<Operand>)
    requires SafeName(f) && forall i :: 0 <= i < |vs| ==> SafeElement(vs[i])
    ensures Clean(f) && Clean(ListText(vs))
  {
    NamePlain(f);
    ListShape(vs);
    CleanFlat(f);
    CleanFlat(ListText(vs));
  }

  lemma CleanInBrackets(f: string, x: string)
    requires Clean(f) && Clean(x)
    ensures Clean(f + (" IN [" + (x + "]")))
  {
    CleanFlat(" IN [");
    CleanFlat("]");
    CleanAppend(x, "]");
    CleanThree(f, " IN [", x + "]");
  }

  lemma {:induction false} CleanPrint(e: Ast)
    requires Safe(e)
    ensures Clean(Print(e))
  {
    match e
    case Not(x) =>
      CleanPrint(x);
      CleanNot(Print(x));
    case Bin(op, l, r) =>
      CleanPrint(l);
      CleanPrint(r);
      CleanBin(Print(l), op, Print(r));
    case Compare(c, l, r) => CleanCompare(l, c, r);
    case Member(f, vs) => FlatMember(f, vs); CleanInBrackets(f, ListText(vs));
    case _ => CleanFlat(Body(e));
  }

  lemma CleanCompare(l: Operand, c: CmpOp, r: Operand)
    requires SafeOperand(l) && SafeOperand(r)
    ensures Clean(OperandText(l) + (" " + (CmpText(c) + (" " + OperandText(r)))))
  {
    var x, y := OperandText(l), OperandText(r);
    OperandShape(l);
    OperandShape(r);
    CleanFlat(" " + y);
    CleanOperator(c, y);
    CleanFlat(" ");
    CleanAppend(" ", CmpText(c) + (" " + y));
    CleanFlat(x);
    CleanAppend(x, " " + (CmpText(c) + (" " + y)));
  }

  // ---- the text of a tree ----

  lemma PrintShape(e: Ast)
    requires Safe(e)
    ensures Print(e) != "" && Tight(Print(e))
    ensures Print(e)[0] == '(' <==> IsConnective(e)
  {
    match e
    case Compare(c, l, r) =>
      OperandShape(l);
      OperandShape(r);
      assert Print(e)[|Print(e)| - 1] == OperandText(r)[|OperandText(r)| - 1];
    case Exists(f) => assert Print(e)[|Print(e)| - 1] == f[|f| - 1];
    case _ =>
  }

  lemma FirstNoConn(x: string, t: string)
    requires x != "" && NoConnStart(x[0])
    ensures MatchConn(" " + (x + t)) == None
  {
    NoConnBefore(x + t);
  }

  /** `Print` never starts with a connective word standing alone. */
  lemma NoConnBeforePrint(e: Ast, t: string)
    requires Safe(e) && Boundary(t)
    ensures MatchConn(" " + (Print(e) + t)) == None
  {
    match e
    case Ident(n) => NoConnBeforeName(n, t);
    case Compare(c, l, r) => NoConnBeforeCompare(l, c, r, t);
    case Member(f, vs) =>
      var u := " IN [" + (ListText(vs) + "]");
      assert (f + u) + t == f + (u + t);
      NoConnBeforeName(f, u + t);
    case _ => FirstNoConn(Print(e), t);
  }

  lemma NoConnBeforeCompare(l: Operand, c: CmpOp, r: Operand, t: string)
    requires SafeOperand(l)
    ensures MatchConn(" " + ((OperandText(l) + (" " + (CmpText(c) + (" " + OperandText(r))))) + t)) == None
  {
    var u := " " + (CmpText(c) + (" " + OperandText(r)));
    assert (OperandText(l) + u) + t == OperandText(l) + (u + t);
    NoConnBeforeOperand(l, u + t);
  }

  /** Text with a space in it is none of the words for true and false. */
  lemma SpacedIsNotTrivial(s: string, i: nat)
    requires i < |s| && s[i] == ' '
    ensures !TrivialTrue(s) && !TrivialFalse(s)
  {
    assert forall w: string :: IsWord(s, w) ==> w[i] == ' ';
  }

  lemma OnePart(s: string, op: Conn)
    requires Skips(s, "", 0, 0, op)
    ensures SplitTopLevel(s, op) == [s]
  {
    assert s + "" == s;
    assert SplitFrom(s, "", 0, 0, None, op) == SplitFrom("", "" + s, 0, 0, None, op);
  }

  // ---- chains ----

  /** Text that the splitter for `op` passes over when it stands between connectives. */
  ghost predicate Segment(x: string, op: Conn) {
    x != "" && Tight(x) && forall t | Boundary(t) :: Skips(x, t, 0, 0, op)
  }

  ghost predicate Segments(xs: seq<string>, op: Conn) {
    forall i :: 0 <= i < |xs| ==> Segment(xs[i], op)
  }

  lemma ConnWordIs(op: Conn, u: string)
    ensures ConnWord(ConnName(op) + (" " + u)) == Some(Hit(op, |ConnName(op)|))
    ensures (ConnName(op) + (" " + u))[|ConnName(op)|..] == " " + u
  {
    var w := ConnName(op) + (" " + u);
    match op
    case And => assert Lower(w[0]) == 'a' && Lower(w[1]) == 'n' && Lower(w[2]) == 'd';
    case Or => assert Lower(w[0]) == 'o' && Lower(w[1]) == 'r';
  }

  lemma ConnHit(op: Conn, u: string)
    requires u != "" && !IsSpace(u[0])
    ensures MatchConn(ConnText(op) + u) == Some(Hit(op, |ConnText(op)|))
    ensures (ConnText(op) + u)[|ConnText(op)|..] == u
  {
    var w := ConnName(op) + (" " + u);
    ConnTextIs(op, u);
    GapRun(w);
    ConnWordIs(op, u);
    GapRun(u);
    assert (" " + w)[1 + |ConnName(op)|..] == w[|ConnName(op)|..];
  }

  lemma JoinShape(xs: seq<string>, sep: string)
    requires xs != [] && forall i :: 0 <= i < |xs| ==> xs[i] != "" && Tight(xs[i])
    ensures var s := Join(xs, sep); s != "" && Tight(s) && s[0] == xs[0][0]
  {
    if |xs| > 1 {
      JoinShape(xs[1..], sep);
      var s, r := Join(xs, sep), Join(xs[1..], sep);
      assert s[|s| - 1] == r[|r| - 1];
    }
  }

  /** Segments joined by a connective are what the splitter for it returns. */
  lemma SegmentAlone(op: Conn, x: string)
    requires Segment(x, op)
    ensures SplitFrom(x, "", 0, 0, None, op) == [x]
  {
    assert Skips(x, "", 0, 0, op);
    assert x + "" == x && "" + x == x;
    TrimTight(x);
  }

  lemma SegmentThen(op: Conn, x: string, u: string)
    requires Segment(x, op) && u != "" && !IsSpace(u[0])
    ensures SplitFrom(x + (ConnText(op) + u), "", 0, 0, None, op) == [x] + SplitFrom(u, "", 0, 0, None, op)
  {
    var t := ConnText(op) + u;
    assert Skips(x, t, 0, 0, op) by { assert Boundary(t); }
    assert "" + x == x;
    CutAtConn(op, x, u);
  }

  lemma CutAtConn(op: Conn, x: string, u: string)
    requires Tight(x) && u != "" && !IsSpace(u[0])
    ensures SplitFrom(ConnText(op) + u, x, 0, 0, None, op) == [x] + SplitFrom(u, "", 0, 0, None, op)
  {
    TrimTight(x);
    ConnHit(op, u);
  }

  /** Segments joined by a connective are what the splitter for it returns. */
  lemma {:induction false} SplitSegments(op: Conn, xs: seq<string>)
    requires xs != [] && Segments(xs, op)
    ensures SplitFrom(Join(xs, ConnText(op)), "", 0, 0, None, op) == xs
  {
    if |xs| == 1 {
      SegmentAlone(op, xs[0]);
    } else {
      JoinShape(xs[1..], ConnText(op));
      SegmentThen(op, xs[0], Join(xs[1..], ConnText(op)));
      SplitSegments(op, xs[1..]);
    }
  }

  lemma {:induction false} NonEmptyAll(xs: seq<string>)
    requires forall i :: 0 <= i < |xs| ==> xs[i] != ""
    ensures NonEmpty(xs) == xs
  {
    if xs != [] { NonEmptyAll(xs[1..]); }
  }

  lemma SplitJoined(op: Conn, xs: seq<string>)
    requires |xs| > 1 && Segments(xs, op)
    ensures SplitTopLevel(Join(xs, ConnText(op)), op) == xs
  {
    SplitSegments(op, xs);
    NonEmptyAll(xs);
  }

  lemma PrintIsSegment(e: Ast, op: Conn)
    requires Safe(e)
    ensures Segment(Print(e), op)
  {
    PrintShape(e);
    forall t | Boundary(t) ensures Skips(Print(e), t, 0, 0, op) { SkipsPrint(e, t, 0, op); }
  }

  lemma PrintsAreSegments(es: seq<Ast>, op: Conn)
    requires forall i :: 0 <= i < |es| ==> Safe(es[i])
    ensures Segments(Prints(es), op)
  {
    forall i | 0 <= i < |es| ensures Segment(Prints(es)[i], op) { PrintIsSegment(es[i], op); }
  }

  lemma SkipsGapBefore(op0: Conn, w: string, t: string, op: Conn)
    requires op0 != op && MatchConn(" " + (w + t)).Some? && MatchConn(" " + (w + t)).value.op == op0
    requires Skips(w, t, 0, 0, op)
    ensures Skips(" " + w, t, 0, 0, op)
  {
    assert [' '] + (w + t) == " " + (w + t);
    SkipsChar(' ', w + t, 0, 0, op);
    SkipsAppend(" ", w, t, 0, 0, op);
  }

  lemma ConnTextAppend(op: Conn, rest: string, t: string)
    ensures " " + ((ConnName(op) + (" " + rest)) + t) == ConnText(op) + (rest + t)
  {
  }

  lemma SkipsOtherConn(op0: Conn, rest: string, t: string, op: Conn)
    requires op0 != op && Skips(rest, t, 0, 0, op)
    requires rest != "" && !IsSpace(rest[0]) && MatchConn(" " + (rest + t)) == None
    ensures Skips(ConnText(op0) + rest, t, 0, 0, op)
  {
    SkipsWordGap(ConnName(op0), rest, t, 0, 0, op);
    ConnHit(op0, rest + t);
    ConnTextAppend(op0, rest, t);
    SkipsGapBefore(op0, ConnName(op0) + (" " + rest), t, op);
    ConnTextIs(op0, rest);
  }

  /** The other connective does not split. */
  lemma SkipsOther(op0: Conn, e: Ast, rest: string, t: string, op: Conn)
    requires op0 != op && Safe(e) && Skips(rest, t, 0, 0, op)
    requires rest != "" && !IsSpace(rest[0]) && MatchConn(" " + (rest + t)) == None
    ensures Skips(Print(e) + (ConnText(op0) + rest), t, 0, 0, op)
  {
    SkipsOtherConn(op0, rest, t, op);
    SkipsPrint(e, (ConnText(op0) + rest) + t, 0, op);
    SkipsAppend(Print(e), ConnText(op0) + rest, t, 0, 0, op);
  }

  lemma ChainStep(op: Conn, es: seq<Ast>)
    requires |es| > 1
    ensures ChainText(op, es) == Print(es[0]) + (ConnText(op) + ChainText(op, es[1..]))
  {
    assert Prints(es)[1..] == Prints(es[1..]);
  }

  lemma ChainShape(op: Conn, es: seq<Ast>)
    requires es != [] && forall i :: 0 <= i < |es| ==> Safe(es[i])
    ensures var s := ChainText(op, es); s != "" && Tight(s)
  {
    forall i | 0 <= i < |es| ensures Prints(es)[i] != "" && Tight(Prints(es)[i]) { PrintShape(es[i]); }
    JoinShape(Prints(es), ConnText(op));
  }

  lemma NoConnBeforeChain(op: Conn, es: seq<Ast>, t: string)
    requires es != [] && (forall i :: 0 <= i < |es| ==> Safe(es[i])) && Boundary(t)
    ensures MatchConn(" " + (ChainText(op, es) + t)) == None
  {
    if |es| == 1 {
      NoConnBeforePrint(es[0], t);
    } else {
      ChainStep(op, es);
      var u := ConnText(op) + ChainText(op, es[1..]);
      assert ChainText(op, es) + t == Print(es[0]) + (u + t);
      NoConnBeforePrint(es[0], u + t);
    }
  }

  lemma {:induction false} SkipsChain(op0: Conn, es: seq<Ast>, t: string, op: Conn)
    requires op0 != op && es != [] && (forall i :: 0 <= i < |es| ==> Safe(es[i])) && Boundary(t)
    ensures Skips(ChainText(op0, es), t, 0, 0, op)
  {
    if |es| == 1 {
      SkipsPrint(es[0], t, 0, op);
    } else {
      SkipsChain(op0, es[1..], t, op);
      ChainShape(op0, es[1..]);
      NoConnBeforeChain(op0, es[1..], t);
      ChainStep(op0, es);
      SkipsOther(op0, es[0], ChainText(op0, es[1..]), t, op);
    }
  }

  lemma ChainIsSegment(op0: Conn, es: seq<Ast>, op: Conn)
    requires op0 != op && es != [] && forall i :: 0 <= i < |es| ==> Safe(es[i])
    ensures Segment(ChainText(op0, es), op)
  {
    ChainShape(op0, es);
    forall t | Boundary(t) ensures Skips(ChainText(op0, es), t, 0, 0, op) { SkipsChain(op0, es, t, op); }
  }

  // ---- outer parentheses ----

  lemma InnerOf(body: string, rest: string)
    requires rest != ""
    ensures var s := ("(" + body + ")") + rest; s[1..|s| - 1] == body + (")" + rest[..|rest| - 1])
  {
  }

  /** Parentheses that close before the end are not outer ones. */
  lemma NotWrapped(e: Ast, rest: string)
    requires Safe(e) && rest != ""
    ensures !Wrapped(Print(e) + rest)
  {
    var s := Print(e) + rest;
    PrintShape(e);
    if IsConnective(e) {
      NeutralPrint(e);
      var u := rest[..|rest| - 1];
      InnerOf(Body(e), rest);
      assert s[1..|s| - 1] == Body(e) + (")" + u);
      assert BalancedFrom(")" + u, 0) == false;
    }
  }

  lemma AtomNotWrapped(e: Ast)
    requires Safe(e) && !IsConnective(e)
    ensures StripOuterParens(Print(e)) == Print(e)
  {
    PrintShape(e);
  }

  lemma BodyShape(e: Ast)
    requires Safe(e) && IsConnective(e)
    ensures Body(e) != "" && Tight(Body(e)) && !Wrapped(Body(e))
  {
    match e
    case Not(x) => PrintShape(x); assert Body(e)[|Body(e)| - 1] == Print(x)[|Print(x)| - 1];
    case Bin(op, l, r) =>
      PrintShape(l);
      PrintShape(r);
      NotWrapped(l, ConnText(op) + Print(r));
      assert Body(e)[|Body(e)| - 1] == Print(r)[|Print(r)| - 1];
  }

  lemma StripPrint(e: Ast)
    requires Safe(e)
    ensures StripOuterParens(Trim(Print(e))) == Body(e)
  {
    PrintShape(e);
    TrimTight(Print(e));
    if IsConnective(e) {
      BodyShape(e);
      NeutralPrint(e);
      TrimTight(Body(e));
      assert Print(e)[1..|Print(e)| - 1] == Body(e);
      assert Body(e) + "" == Body(e);
      assert BalancedFrom(Body(e), 0) == BalancedFrom("", 0);
    } else {
      AtomNotWrapped(e);
    }
  }

  // ---- the round trip ----

  function MaxHeight(es: seq<Ast>): nat {
    if es == [] then 0 else Max(Height(es[0]), MaxHeight(es[1..]))
  }

  /** Text that no earlier rule takes is read as an atom. */
  lemma ReachesAtom(s: string, depth: int, maxDepth: int)
    requires depth <= maxDepth && s != "" && !TrivialTrue(s) && !TrivialFalse(s)
    requires SplitTopLevel(s, Or) == [s] && SplitTopLevel(s, And) == [s] && !NotPrefix(s) && s[0] != '!'
    ensures ParseStripped(s, depth, maxDepth) == ParseAtom(s)
  {
  }

  lemma SpacedAtom(s: string, i: nat, depth: int, maxDepth: int)
    requires depth <= maxDepth && i < |s| && s[i] == ' '
    requires SplitTopLevel(s, Or) == [s] && SplitTopLevel(s, And) == [s] && !NotPrefix(s) && s[0] != '!'
    ensures ParseStripped(s, depth, maxDepth) == ParseAtom(s)
  {
    SpacedIsNotTrivial(s, i);
    ReachesAtom(s, depth, maxDepth);
  }

  lemma MemberStripped(f: string, vs: seq<Operand>, depth: int, maxDepth: int)
    requires Safe(Member(f, vs)) && depth <= maxDepth
    ensures ParseStripped(Body(Member(f, vs)), depth, maxDepth) == Ok(Member(f, vs))
  {
    OneSplit(Member(f, vs));
    MemberAtom(f, vs);
    SpacedAtom(Body(Member(f, vs)), |f|, depth, maxDepth);
  }

  lemma CompareStripped(c: CmpOp, l: Operand, r: Operand, depth: int, maxDepth: int)
    requires Safe(Compare(c, l, r)) && depth <= maxDepth
    ensures ParseStripped(Body(Compare(c, l, r)), depth, maxDepth) == Ok(Compare(c, l, r))
  {
    OneSplit(Compare(c, l, r));
    CompareAtom(c, l, r);
    SpacedAtom(Body(Compare(c, l, r)), |OperandText(l)|, depth, maxDepth);
  }

  lemma AtomStripped(e: Ast, depth: int, maxDepth: int)
    requires Safe(e) && !IsConnective(e) && depth <= maxDepth
    ensures ParseStripped(Body(e), depth, maxDepth) == Ok(e)
  {
    match e
    case Const(_) =>
    case Ident(n) => OneSplit(e); IdentAtom(n); ReachesAtom(n, depth, maxDepth);
    case Exists(f) => OneSplit(e); ExistsAtom(f); SpacedAtom(Body(e), 6, depth, maxDepth);
    case Compare(c, l, r) => CompareStripped(c, l, r, depth, maxDepth);
    case Member(f, vs) => MemberStripped(f, vs, depth, maxDepth);
  }

  lemma OneSplit(e: Ast)
    requires Safe(e) && !IsConnective(e)
    ensures SplitTopLevel(Body(e), Or) == [Body(e)] && SplitTopLevel(Body(e), And) == [Body(e)]
  {
    SkipsPrint(e, "", 0, Or);
    SkipsPrint(e, "", 0, And);
    OnePart(Body(e), Or);
    OnePart(Body(e), And);
  }

  lemma OnePartAfterNot(p: string, op: Conn)
    requires Skips(p, "", 0, 0, op) && MatchConn(" " + (p + "")) == None
    ensures SplitTopLevel("NOT " + p, op) == ["NOT " + p]
  {
    SkipsWordGap("NOT", p, "", 0, 0, op);
    assert "NOT " + p == "NOT" + (" " + p);
    OnePart("NOT " + p, op);
  }

  lemma NotSplit(x: Ast, op: Conn)
    requires Safe(x)
    ensures SplitTopLevel("NOT " + Print(x), op) == ["NOT " + Print(x)]
  {
    SkipsPrint(x, "", 0, op);
    NoConnBeforePrint(x, "");
    OnePartAfterNot(Print(x), op);
  }

  lemma AfterNot(p: string)
    requires p != "" && !IsSpace(p[0])
    ensures var s := "NOT " + p; s[3..] == " " + p && TrimLeft(s[3..]) == p
  {
    var s := "NOT " + p;
    assert s[3..] == " " + p;
    GapRun(p);
    assert (" " + p)[1..] == p;
    assert TrimLeft(" " + p) == TrimLeft(p) == p;
  }

  lemma NotBranch(s: string, depth: int, maxDepth: int)
    requires depth <= maxDepth && s != "" && !TrivialTrue(s) && !TrivialFalse(s) && NotPrefix(s)
    requires SplitTopLevel(s, Or) == [s] && SplitTopLevel(s, And) == [s]
    ensures ParseStripped(s, depth, maxDepth) == Negate(ParseExpression(TrimLeft(s[3..]), depth + 1, maxDepth))
  {
  }

  lemma NotStripped(x: Ast, depth: int, maxDepth: int)
    requires Safe(x) && depth <= maxDepth
    ensures ParseStripped("NOT " + Print(x), depth, maxDepth) == Negate(ParseExpression(Print(x), depth + 1, maxDepth))
  {
    var s := "NOT " + Print(x);
    SpacedIsNotTrivial(s, 3);
    NotSplit(x, Or);
    NotSplit(x, And);
    PrintShape(x);
    AfterNot(Print(x));
    NotIsPrefix(Print(x));
    NotBranch(s, depth, maxDepth);
  }

  lemma NotIsPrefix(p: string)
    ensures NotPrefix("NOT " + p)
  {
  }

  lemma ChainNotTrivial(op: Conn, es: seq<Ast>)
    requires |es| > 1
    ensures !TrivialTrue(ChainText(op, es)) && !TrivialFalse(ChainText(op, es))
  {
    ChainStep(op, es);
    SpacedIsNotTrivial(ChainText(op, es), |Print(es[0])|);
  }

  lemma ChainStripped(op: Conn, es: seq<Ast>, depth: int, maxDepth: int)
    requires |es| > 1 && (forall i :: 0 <= i < |es| ==> Safe(es[i])) && depth <= maxDepth
    ensures ParseStripped(ChainText(op, es), depth, maxDepth) == Folded(op, ParseParts(Prints(es), depth + 1, maxDepth))
  {
    ChainShape(op, es);
    ChainNotTrivial(op, es);
    PrintsAreSegments(es, op);
    SplitJoined(op, Prints(es));
    if op == And {
      SkipsChain(And, es, "", Or);
      OnePart(ChainText(op, es), Or);
    }
  }

  lemma PairText(op: Conn, l: Ast, r: Ast)
    ensures ChainText(op, [l, r]) == Body(Bin(op, l, r))
    ensures Fold(op, [l, r]) == Bin(op, l, r)
    ensures MaxHeight([l, r]) == Max(Height(l), Height(r))
  {
    ChainStep(op, [l, r]);
    assert [l, r][..1] == [l];
    assert [l, r][1..] == [r] && [r][1..] == [];
    assert MaxHeight([r]) == Max(Height(r), 0);
  }

  /** The printed text of a tree parses to that tree when the tree is low enough, and is rejected for
      its depth otherwise. */
  lemma {:induction false} RoundTripAt(e: Ast, depth: int, maxDepth: int)
    requires Safe(e)
    ensures ParseExpression(Print(e), depth, maxDepth)
         == if depth + Height(e) <= maxDepth then Ok(e) else Err(DepthExceeded)
    decreases Height(e), 1
  {
    StripPrint(e);
    if depth <= maxDepth {
      BodyRoundTrip(e, depth, maxDepth);
    }
  }

  lemma {:induction false} BodyRoundTrip(e: Ast, depth: int, maxDepth: int)
    requires Safe(e) && depth <= maxDepth
    ensures ParseStripped(Body(e), depth, maxDepth)
         == if depth + Height(e) <= maxDepth then Ok(e) else Err(DepthExceeded)
    decreases Height(e), 0
  {
    match e
    case Not(x) =>
      RoundTripAt(x, depth + 1, maxDepth);
      NotStripped(x, depth, maxDepth);
    case Bin(op, l, r) =>
      PairText(op, l, r);
      PairSafe(op, l, r);
      ChainStripped(op, [l, r], depth, maxDepth);
      PartsRoundTrip([l, r], depth + 1, maxDepth);
    case _ => AtomStripped(e, depth, maxDepth);
  }

  lemma PairSafe(op: Conn, l: Ast, r: Ast)
    requires Safe(Bin(op, l, r))
    ensures forall i :: 0 <= i < |[l, r]| ==> Safe([l, r][i])
  {
  }

  lemma {:induction false} PartsRoundTrip(es: seq<Ast>, depth: int, maxDepth: int)
    requires es != [] && forall i :: 0 <= i < |es| ==> Safe(es[i])
    ensures ParseParts(Prints(es), depth, maxDepth)
         == if depth + MaxHeight(es) <= maxDepth then Ok(es) else Err(DepthExceeded)
    decreases MaxHeight(es), 2, |es|
  {
    RoundTripAt(es[0], depth, maxDepth);
    assert Prints(es)[1..] == Prints(es[1..]);
    assert [es[0]] + es[1..] == es;
    if |es| > 1 {
      PartsRoundTrip(es[1..], depth, maxDepth);
    }
  }

  /** Parsing the canonical text of a tree gives exactly that tree, or the depth error. */
  lemma RoundTrip(e: Ast, maxDepth: int)
    requires Safe(e)
    ensures Fresh(Print(e), maxDepth) == if Height(e) <= maxDepth then Ok(e) else Err(DepthExceeded)
  {
    PrintShape(e);
    TrimTight(Print(e));
    CleanPrint(e);
    assert Print(e) + "" == Print(e);
    RoundTripAt(e, 0, maxDepth);
  }

  /** Canonical texts are distinct. */
  lemma PrintInjective(a: Ast, b: Ast)
    requires Safe(a) && Safe(b) && Print(a) == Print(b)
    ensures a == b
  {
    RoundTrip(a, Max(Height(a), Height(b)));
    RoundTrip(b, Max(Height(a), Height(b)));
  }
}
