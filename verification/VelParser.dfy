// The VEL parser: quote-, parenthesis- and bracket-aware splitting at the top level, a depth
// limit, and a memo of the trees already parsed.

module VelScan {
  import opened Options
  import opened Text
  import opened VelAst

  /** Number of leading white-space characters. */
  function SpaceRun(s: string): (n: nat)
    ensures n <= |s|
    ensures n < |s| ==> !IsSpace(s[n])
    ensures forall i :: 0 <= i < n ==> IsSpace(s[i])
  {
    if s != "" && IsSpace(s[0]) then 1 + SpaceRun(s[1..]) else 0
  }

  datatype Hit = Hit(op: Conn, len: nat)

  /** The connective word at the head of `s`, with its length. */
  function ConnWord(s: string): Option<Hit> {
    if WordAt(s, "and") then Some(Hit(And, 3))
    else if WordAt(s, "or") then Some(Hit(Or, 2))
    else if WordAt(s, "&&") then Some(Hit(And, 2))
    else if WordAt(s, "||") then Some(Hit(Or, 2))
    else None
  }

  /** `/^\s+(AND|OR|&&|\|\|)\s+/i` */
  function MatchConn(s: string): (r: Option<Hit>)
    ensures r.Some? ==> 0 < r.value.len <= |s|
  {
    var n := SpaceRun(s);
    if n == 0 then None
    else
      var w := ConnWord(s[n..]);
      if w.None? then None
      else
        var m := SpaceRun(s[n + w.value.len..]);
        if m == 0 then None else Some(Hit(w.value.op, n + w.value.len + m))
  }

  function Level(ch: char, up: char, down: char, level: int): int {
    if ch == up then level + 1 else if ch == down then level - 1 else level
  }

  /** The trimmed pieces of `cur + s`, where `cur` is the piece begun and `s` is still to be read. */
  function SplitFrom(s: string, cur: string, depth: int, bracket: int, quote: Option<char>,
                     op: Conn): (parts: seq<string>)
    ensures parts != []
    decreases |s|
  {
    if s == "" then [Trim(cur)]
    else if quote.Some? then
      SplitFrom(s[1..], cur + [s[0]], depth, bracket, if s[0] == quote.value then None else quote, op)
    else if QuoteChar(s[0]) then
      SplitFrom(s[1..], cur + [s[0]], depth, bracket, Some(s[0]), op)
    else
      var d := Level(s[0], '(', ')', depth);
      var b := Level(s[0], '[', ']', bracket);
      if d == 0 && b == 0 && IsSpace(s[0]) && MatchConn(s).Some? && MatchConn(s).value.op == op then
        [Trim(cur)] + SplitFrom(s[MatchConn(s).value.len..], "", d, b, None, op)
      else
        SplitFrom(s[1..], cur + [s[0]], d, b, None, op)
  }

  function NonEmpty(parts: seq<string>): seq<string> {
    if parts == [] then []
    else (if parts[0] != "" then [parts[0]] else []) + NonEmpty(parts[1..])
  }

  function SplitTopLevel(s: string, op: Conn): seq<string> {
    var parts := SplitFrom(s, "", 0, 0, None, op);
    if |parts| == 1 then [s] else NonEmpty(parts)
  }

  /** Every parenthesis closes an earlier one and none is left open; quotes are not considered. */
  predicate BalancedFrom(s: string, depth: int) {
    if s == "" then depth == 0
    else
      var d := Level(s[0], '(', ')', depth);
      d >= 0 && BalancedFrom(s[1..], d)
  }

  lemma TrimShorter(s: string)
    ensures |Trim(s)| <= |s|
  {
    TrimLeftShorter(s);
    TrimRightShorter(TrimLeft(s));
  }

  lemma TrimLeftShorter(s: string)
    ensures |TrimLeft(s)| <= |s|
  {
  }

  lemma TrimRightShorter(s: string)
    ensures |TrimRight(s)| <= |s|
  {
  }

  predicate Wrapped(s: string) {
    |s| >= 2 && s[0] == '(' && s[|s| - 1] == ')' && BalancedFrom(s[1..|s| - 1], 0)
  }

  function StripOuterParens(s: string): string
    decreases |s|
  {
    if Wrapped(s) then
      TrimShorter(s[1..|s| - 1]);
      StripOuterParens(Trim(s[1..|s| - 1]))
    else s
  }

  /** The comma-separated pieces of `cur + s`; commas inside quotes do not separate. */
  function CsvFrom(s: string, cur: string, quote: Option<char>): seq<string>
    decreases |s|
  {
    if s == "" then (if Trim(cur) != "" then [Trim(cur)] else [])
    else if quote.Some? then CsvFrom(s[1..], cur + [s[0]], if s[0] == quote.value then None else quote)
    else if QuoteChar(s[0]) then CsvFrom(s[1..], cur + [s[0]], Some(s[0]))
    else if s[0] == ',' then [Trim(cur)] + CsvFrom(s[1..], "", None)
    else CsvFrom(s[1..], cur + [s[0]], None)
  }

  function SplitCsv(s: string): seq<string> {
    CsvFrom(s, "", None)
  }

  // ---- the loops ----

  /** What the splitting loop still owes when it stands at `i` with a piece begun at `start`. */
  function Owed(input: string, start: nat, i: nat, depth: int, bracket: int, quote: Option<char>, op: Conn): seq<string>
    requires start <= i <= |input|
  {
    SplitFrom(input[i..], input[start..i], depth, bracket, quote, op)
  }

  lemma Onward(input: string, start: nat, i: nat)
    requires start <= i < |input|
    ensures input[i..] != "" && input[i..][0] == input[i] && input[i..][1..] == input[i + 1..]
    ensures input[start..i] + [input[i]] == input[start..i + 1]
  {
  }

  lemma OwedInQuote(input: string, start: nat, i: nat, depth: int, bracket: int, q: char, op: Conn)
    requires start <= i < |input|
    ensures Owed(input, start, i, depth, bracket, Some(q), op)
         == Owed(input, start, i + 1, depth, bracket, if input[i] == q then None else Some(q), op)
  {
    Onward(input, start, i);
    InQuote(input[i..], input[start..i], depth, bracket, q, op);
  }

  lemma InQuote(s: string, cur: string, depth: int, bracket: int, q: char, op: Conn)
    requires s != ""
    ensures SplitFrom(s, cur, depth, bracket, Some(q), op)
         == SplitFrom(s[1..], cur + [s[0]], depth, bracket, if s[0] == q then None else Some(q), op)
  {
  }

  lemma OwedAtQuote(input: string, start: nat, i: nat, depth: int, bracket: int, op: Conn)
    requires start <= i < |input| && QuoteChar(input[i])
    ensures Owed(input, start, i, depth, bracket, None, op)
         == Owed(input, start, i + 1, depth, bracket, Some(input[i]), op)
  {
    assert input[i..][1..] == input[i + 1..];
    assert input[start..i] + [input[i]] == input[start..i + 1];
  }

  predicate CutsAt(rest: string, depth: int, bracket: int, op: Conn)
    requires rest != ""
  {
    && depth == 0 && bracket == 0 && IsSpace(rest[0])
    && MatchConn(rest).Some? && MatchConn(rest).value.op == op
  }

  lemma OwedOn(input: string, start: nat, i: nat, depth: int, bracket: int, op: Conn)
    requires start <= i < |input| && !QuoteChar(input[i])
    requires !CutsAt(input[i..], Level(input[i], '(', ')', depth), Level(input[i], '[', ']', bracket), op)
    ensures Owed(input, start, i, depth, bracket, None, op)
         == Owed(input, start, i + 1, Level(input[i], '(', ')', depth), Level(input[i], '[', ']', bracket), None, op)
  {
    assert input[i..][1..] == input[i + 1..];
    assert input[start..i] + [input[i]] == input[start..i + 1];
  }

  lemma OwedCut(input: string, start: nat, i: nat, depth: int, bracket: int, op: Conn)
    requires start <= i < |input| && !QuoteChar(input[i])
    requires CutsAt(input[i..], Level(input[i], '(', ')', depth), Level(input[i], '[', ']', bracket), op)
    ensures var next := i + MatchConn(input[i..]).value.len;
      Owed(input, start, i, depth, bracket, None, op)
      == [Trim(input[start..i])] + Owed(input, next, next, 0, 0, None, op)
  {
    var next := i + MatchConn(input[i..]).value.len;
    assert input[i..][MatchConn(input[i..]).value.len..] == input[next..];
    assert input[next..next] == "";
  }

  lemma OwedAtEnd(input: string, start: nat, depth: int, bracket: int, quote: Option<char>, op: Conn)
    requires start <= |input|
    ensures Owed(input, start, |input|, depth, bracket, quote, op) == [Trim(input[start..])]
  {
    assert input[start..] == input[start..|input|];
    assert input[|input|..] == "";
  }

  lemma AppendAssociates<T>(a: seq<T>, x: T, b: seq<T>)
    ensures a + ([x] + b) == (a + [x]) + b
  {
  }

  /** The pieces cut so far and what is still owed make up the whole. */
  ghost predicate Owes(whole: seq<string>, parts: seq<string>, input: string, start: nat, i: nat, depth: int,
                       bracket: int, quote: Option<char>, op: Conn) {
    start <= i <= |input| && parts + Owed(input, start, i, depth, bracket, quote, op) == whole
  }

  lemma OwesQuoted(whole: seq<string>, parts: seq<string>, input: string, start: nat, i: nat, depth: int, bracket: int,
                   q: char, op: Conn)
    requires i < |input| && Owes(whole, parts, input, start, i, depth, bracket, Some(q), op)
    ensures Owes(whole, parts, input, start, i + 1, depth, bracket, if input[i] == q then None else Some(q), op)
  {
    OwedInQuote(input, start, i, depth, bracket, q, op);
  }

  lemma OwesQuote(whole: seq<string>, parts: seq<string>, input: string, start: nat, i: nat, depth: int, bracket: int,
                  op: Conn)
    requires i < |input| && QuoteChar(input[i]) && Owes(whole, parts, input, start, i, depth, bracket, None, op)
    ensures Owes(whole, parts, input, start, i + 1, depth, bracket, Some(input[i]), op)
  {
    OwedAtQuote(input, start, i, depth, bracket, op);
  }

  lemma OwesOn(whole: seq<string>, parts: seq<string>, input: string, start: nat, i: nat, depth: int, bracket: int,
               op: Conn)
    requires i < |input| && !QuoteChar(input[i]) && Owes(whole, parts, input, start, i, depth, bracket, None, op)
    requires !CutsAt(input[i..], Level(input[i], '(', ')', depth), Level(input[i], '[', ']', bracket), op)
    ensures Owes(whole, parts, input, start, i + 1, Level(input[i], '(', ')', depth),
                 Level(input[i], '[', ']', bracket), None, op)
  {
    OwedOn(input, start, i, depth, bracket, op);
  }

  lemma OwesCut(whole: seq<string>, parts: seq<string>, input: string, start: nat, i: nat, depth: int, bracket: int,
                op: Conn, hit: Hit)
    requires i < |input| && !QuoteChar(input[i]) && Owes(whole, parts, input, start, i, depth, bracket, None, op)
    requires CutsAt(input[i..], Level(input[i], '(', ')', depth), Level(input[i], '[', ']', bracket), op)
    requires MatchConn(input[i..]) == Some(hit)
    ensures 0 < hit.len <= |input| - i
    ensures Owes(whole, parts + [Trim(input[start..i])], input, i + hit.len, i + hit.len, 0, 0, None, op)
  {
    OwedCut(input, start, i, depth, bracket, op);
    MovePart(whole, parts, Trim(input[start..i]), Owed(input, start, i, depth, bracket, None, op),
             Owed(input, i + hit.len, i + hit.len, 0, 0, None, op));
  }

  lemma MovePart<T>(whole: seq<T>, parts: seq<T>, x: T, owed: seq<T>, rest: seq<T>)
    requires parts + owed == whole && owed == [x] + rest
    ensures (parts + [x]) + rest == whole
  {
    AppendAssociates(parts, x, rest);
  }

  /** What is owed after a cut, in the terms of the loop. */
  lemma OwesAfterCut(whole: seq<string>, parts: seq<string>, input: string, start: nat, i: nat, depth: int,
                     bracket: int, op: Conn)
    returns (hit: Hit)
    requires i < |input| && !QuoteChar(input[i]) && Owes(whole, parts, input, start, i, depth, bracket, None, op)
    requires CutsAt(input[i..], Level(input[i], '(', ')', depth), Level(input[i], '[', ']', bracket), op)
    ensures MatchConn(input[i..]) == Some(hit) && 0 < hit.len && i + hit.len <= |input|
    ensures Owes(whole, parts + [Trim(input[start..i])], input, i + hit.len, i + hit.len, 0, 0, None, op)
  {
    hit := MatchConn(input[i..]).value;
    OwesCut(whole, parts, input, start, i, depth, bracket, op, hit);
  }

  /** The loop body at a character outside quotes. */
  method TakePlain(input: string, op: Conn, parts: seq<string>, start: nat, i: nat, depth: int, bracket: int,
                   ghost whole: seq<string>)
    returns (cut: seq<string>, from: nat, at: nat, d: int, b: int)
    requires i < |input| && !QuoteChar(input[i]) && Owes(whole, parts, input, start, i, depth, bracket, None, op)
    ensures i <= at < |input| && Owes(whole, cut, input, from, at + 1, d, b, None, op)
  {
    cut, from, at := parts, start, i;
    d, b := Level(input[i], '(', ')', depth), Level(input[i], '[', ']', bracket);
    if CutsAt(input[i..], d, b, op) {
      ghost var hit := OwesAfterCut(whole, parts, input, start, i, depth, bracket, op);
      cut := parts + [Trim(input[start..i])];
      at := i + MatchConn(input[i..]).value.len - 1;
      from := at + 1;
      assert from == i + hit.len && d == 0 && b == 0;
    } else {
      OwesOn(whole, parts, input, start, i, depth, bracket, op);
    }
  }

  method SplitTopLevelLoop(input: string, op: Conn) returns (r: seq<string>)
    ensures r == SplitTopLevel(input, op)
  {
    var parts: seq<string> := [];
    var depth, bracket, start, i := 0, 0, 0, 0;
    var quote: Option<char> := None;
    assert input[0..] == input;
    ghost var whole := SplitFrom(input, "", 0, 0, None, op);
    while i < |input|
      invariant 0 <= start <= i <= |input|
      invariant Owes(whole, parts, input, start, i, depth, bracket, quote, op)
    {
      var ch := input[i];
      if quote.Some? {
        OwesQuoted(whole, parts, input, start, i, depth, bracket, quote.value, op);
        if ch == quote.value { quote := None; }
      } else if QuoteChar(ch) {
        OwesQuote(whole, parts, input, start, i, depth, bracket, op);
        quote := Some(ch);
      } else {
        parts, start, i, depth, bracket := TakePlain(input, op, parts, start, i, depth, bracket, whole);
      }
      i := i + 1;
    }
    OwedAtEnd(input, start, depth, bracket, quote, op);
    if |parts| == 0 {
      r := [input];
    } else {
      parts := parts + [Trim(input[start..])];
      r := NonEmpty(parts);
    }
  }

  method BalancedLoop(input: string) returns (r: bool)
    ensures r == BalancedFrom(input, 0)
  {
    var depth := 0;
    assert input[0..] == input;
    for i := 0 to |input|
      invariant depth >= 0
      invariant BalancedFrom(input, 0) == BalancedFrom(input[i..], depth)
    {
      assert input[i..][1..] == input[i + 1..];
      if input[i] == '(' { depth := depth + 1; }
      if input[i] == ')' { depth := depth - 1; }
      if depth < 0 { return false; }
    }
    return depth == 0;
  }

  method StripOuterParensLoop(input: string) returns (s: string)
    ensures s == StripOuterParens(input)
  {
    s := input;
    while |s| >= 2 && s[0] == '(' && s[|s| - 1] == ')'
      invariant StripOuterParens(s) == StripOuterParens(input)
      decreases |s|
    {
      var inner := s[1..|s| - 1];
      var ok := BalancedLoop(inner);
      if !ok { break; }
      TrimShorter(inner);
      s := Trim(inner);
    }
  }

  method SplitCsvLoop(input: string) returns (parts: seq<string>)
    ensures parts == SplitCsv(input)
  {
    parts := [];
    var current: string := "";
    var quote: Option<char> := None;
    assert input[0..] == input;
    for i := 0 to |input|
      invariant parts + CsvFrom(input[i..], current, quote) == SplitCsv(input)
    {
      var ch := input[i];
      assert input[i..][1..] == input[i + 1..];
      if quote.Some? {
        if ch == quote.value { quote := None; }
        current := current + [ch];
      } else if QuoteChar(ch) {
        quote := Some(ch);
        current := current + [ch];
      } else if ch == ',' {
        parts := parts + [Trim(current)];
        current := "";
      } else {
        current := current + [ch];
      }
    }
    if Trim(current) != "" {
      parts := parts + [Trim(current)];
    }
  }
}

module VelParse {
  import opened Options
  import opened Text
  import opened Sorting
  import opened VelAst
  import opened VelScan

  datatype ParseError =
    | InvalidComparison
    | DepthExceeded
    | InvalidOperand(operand: string)
    | Unrecognized(expression: string)

  datatype Result<+T> = Ok(value: T) | Err(error: ParseError)

  // ---- matchers for the patterns of the atoms ----

  predicate OneLine(s: string) {
    forall i :: 0 <= i < |s| ==> !IsLineEnd(s[i])
  }

  /** `/<<|>>|<\s*<=|>\s*>=|={3,}|!={2,}|<==|>==/` anywhere in `s`. */
  predicate BadOperators(s: string) {
    s != "" && (BadOperatorAt(s) || BadOperators(s[1..]))
  }

  predicate BadOperatorAt(s: string)
    requires s != ""
  {
    || StartsWith(s, "<<") || StartsWith(s, ">>")
    || (s[0] == '<' && StartsWith(TrimLeft(s[1..]), "<="))
    || (s[0] == '>' && StartsWith(TrimLeft(s[1..]), ">="))
    || StartsWith(s, "===") || StartsWith(s, "!==")
    || StartsWith(s, "<==") || StartsWith(s, ">==")
  }

  /** `/\s+IN\s+\[(.*)]$/i` at the head of `t`, giving what stands between the brackets. */
  function MemberTail(t: string): Option<string> {
    var n := SpaceRun(t);
    if n == 0 || !WordAt(t[n..], "in") then None
    else
      var u := t[n + 2..];
      var m := SpaceRun(u);
      var v := u[m..];
      if m == 0 || |v| < 2 || v[0] != '[' || v[|v| - 1] != ']' || !OneLine(v[1..|v| - 1]) then None
      else Some(v[1..|v| - 1])
  }

  datatype MemberMatch = MemberMatch(field: string, list: string)

  /** `/^(.+?)\s+IN\s+\[(.*)]$/i`, the lazy group ending at `k` or later. */
  function FindMember(s: string, k: nat): Option<MemberMatch>
    requires 1 <= k
    decreases |s| - k
  {
    if k >= |s| || IsLineEnd(s[k - 1]) then None
    else if MemberTail(s[k..]).Some? then Some(MemberMatch(s[..k], MemberTail(s[k..]).value))
    else FindMember(s, k + 1)
  }

  function OperatorTail(t: string, op: CmpOp): Option<(CmpOp, string)> {
    var w := CmpText(op);
    if !StartsWith(t, w) then None
    else
      var r := TrimLeft(t[|w|..]);
      if r == "" || !OneLine(r) then None else Some((op, r))
  }

  function FirstSome<T>(a: Option<T>, b: Option<T>): Option<T> {
    if a.Some? then a else b
  }

  /** `/\s*(<=|>=|==|!=|<|>)\s*(.+)$/` at the head of `t`; the alternatives are tried in order. */
  function CompareTail(t: string): Option<(CmpOp, string)> {
    var u := t[SpaceRun(t)..];
    FirstSome(OperatorTail(u, Le), FirstSome(OperatorTail(u, Ge), FirstSome(OperatorTail(u, Eq),
    FirstSome(OperatorTail(u, Ne), FirstSome(OperatorTail(u, Lt), OperatorTail(u, Gt))))))
  }

  datatype CompareMatch = CompareMatch(left: string, op: CmpOp, right: string)

  function FindCompare(s: string, k: nat): Option<CompareMatch>
    requires 1 <= k
    decreases |s| - k
  {
    if k >= |s| || IsLineEnd(s[k - 1]) then None
    else if CompareTail(s[k..]).Some? then
      var hit := CompareTail(s[k..]).value;
      Some(CompareMatch(s[..k], hit.0, hit.1))
    else FindCompare(s, k + 1)
  }

  /** `/[<>=!\[\]()]/` */
  predicate HasOperatorOrGroup(s: string) {
    exists i :: 0 <= i < |s| && (OperatorChar(s[i]) || s[i] == '[' || s[i] == ']' || s[i] == '(' || s[i] == ')')
  }

  // ---- operands ----

  predicate QuotedBy(s: string, q: char) {
    s != "" && s[0] == q && s[|s| - 1] == q
  }

  function ParseOperand(raw: string): Result<Operand> {
    var s := Trim(raw);
    if QuotedBy(s, '"') || QuotedBy(s, '\'') then Ok(Lit(Str(if |s| < 2 then "" else s[1..|s| - 1])))
    else if NumberToken(s) then Ok(Lit(Num(s)))
    else if IsWord(s, "true") || IsWord(s, "false") then Ok(Lit(Bool(IsWord(s, "true"))))
    else if FieldPath(s) then Ok(Field(s))
    else Err(InvalidOperand(s))
  }

  /** A bare word without a dot in a list is a string. */
  function ParseListOperand(raw: string): Result<Operand> {
    var o := ParseOperand(raw);
    if o.Ok? && o.value.Field? && '.' !in o.value.path then Ok(Lit(Str(o.value.path))) else o
  }

  function ParseList(parts: seq<string>): Result<seq<Operand>> {
    if parts == [] then Ok([])
    else
      var first := ParseListOperand(parts[0]);
      if first.Err? then Err(first.error)
      else
        var rest := ParseList(parts[1..]);
        if rest.Err? then rest else Ok([first.value] + rest.value)
  }

  function ParseMembership(m: MemberMatch): Result<Ast> {
    var values := ParseList(SplitCsv(m.list));
    if values.Err? then Err(values.error) else Ok(Member(Trim(m.field), values.value))
  }

  function ParseComparison(m: CompareMatch): Result<Ast> {
    var l := ParseOperand(m.left);
    if l.Err? then Err(l.error)
    else
      var r := ParseOperand(m.right);
      if r.Err? then Err(r.error) else Ok(Compare(m.op, l.value, r.value))
  }

  /** What is left when no connective applies. */
  function ParseAtom(s: string): Result<Ast> {
    if WordAt(s, "exists") && SpaceRun(s[6..]) > 0 && TrimLeft(s[6..]) != "" && OneLine(TrimLeft(s[6..])) then
      Ok(Exists(Trim(s[6..])))
    else if FindMember(s, 1).Some? then ParseMembership(FindMember(s, 1).value)
    else if FindCompare(s, 1).Some? then ParseComparison(FindCompare(s, 1).value)
    else if HasOperatorOrGroup(s) then Err(Unrecognized(s))
    else Ok(Ident(s))
  }

  // ---- expressions ----

  function Budget(depth: int, maxDepth: int): nat {
    if depth > maxDepth then 0 else maxDepth + 1 - depth
  }

  predicate NotPrefix(s: string) {
    WordAt(s, "not") && SpaceRun(s[3..]) > 0
  }

  function Negate(r: Result<Ast>): Result<Ast> {
    if r.Err? then r else Ok(Not(r.value))
  }

  function Folded(op: Conn, r: Result<seq<Ast>>): Result<Ast> {
    if r.Err? then Err(r.error) else if r.value == [] then Ok(Const(true)) else Ok(Fold(op, r.value))
  }

  function ParseExpression(input: string, depth: int, maxDepth: int): Result<Ast>
    decreases Budget(depth, maxDepth), 1, 0
  {
    if depth > maxDepth then Err(DepthExceeded) else ParseStripped(StripOuterParens(Trim(input)), depth, maxDepth)
  }

  function ParseStripped(s: string, depth: int, maxDepth: int): Result<Ast>
    requires depth <= maxDepth
    decreases Budget(depth, maxDepth), 0, 0
  {
    if s == "" || TrivialTrue(s) then Ok(Const(true))
    else if TrivialFalse(s) then Ok(Const(false))
    else if |SplitTopLevel(s, Or)| > 1 then Folded(Or, ParseParts(SplitTopLevel(s, Or), depth + 1, maxDepth))
    else if |SplitTopLevel(s, And)| > 1 then Folded(And, ParseParts(SplitTopLevel(s, And), depth + 1, maxDepth))
    else if NotPrefix(s) then Negate(ParseExpression(TrimLeft(s[3..]), depth + 1, maxDepth))
    else if s[0] == '!' then Negate(ParseExpression(s[1..], depth + 1, maxDepth))
    else ParseAtom(s)
  }

  /** The parts of a split, parsed in order; the first failure is the result. */
  function ParseParts(parts: seq<string>, depth: int, maxDepth: int): (r: Result<seq<Ast>>)
    ensures r.Ok? ==> |r.value| == |parts|
    decreases Budget(depth, maxDepth), 2, |parts|
  {
    if parts == [] then Ok([])
    else
      var first := ParseExpression(parts[0], depth, maxDepth);
      if first.Err? then Err(first.error)
      else
        var rest := ParseParts(parts[1..], depth, maxDepth);
        if rest.Err? then rest else Ok([first.value] + rest.value)
  }

  /** What a parser with an empty memo answers. */
  function Fresh(condition: string, maxDepth: int): Result<Ast> {
    var s := Trim(condition);
    if BadOperators(s) then Err(InvalidComparison) else ParseExpression(s, 0, maxDepth)
  }

  // ---- the fields of a tree, in the order the walk meets them ----

  function Add(fields: seq<string>, x: string): seq<string> {
    if x in fields then fields else fields + [x]
  }

  function WalkOperand(o: Operand, fields: seq<string>): seq<string> {
    if o.Field? then Add(fields, o.path) else fields
  }

  function WalkList(vs: seq<Operand>, fields: seq<string>): seq<string> {
    if vs == [] then fields else WalkList(vs[1..], WalkOperand(vs[0], fields))
  }

  function Walk(a: Ast, fields: seq<string>): seq<string> {
    match a
    case Const(_) => fields
    case Ident(n) => Add(fields, n)
    case Not(e) => Walk(e, fields)
    case Bin(_, l, r) => Walk(r, Walk(l, fields))
    case Exists(f) => Add(fields, f)
    case Compare(_, l, r) => WalkOperand(r, WalkOperand(l, fields))
    case Member(f, vs) => WalkList(vs, Add(fields, f))
  }

  function FieldReferences(a: Ast): seq<string> {
    Sort(Walk(a, []), TextLess)
  }

  ghost function Elements(s: seq<string>): set<string> {
    set x | x in s
  }

  lemma AddElements(fields: seq<string>, x: string)
    requires Distinct(fields)
    ensures Distinct(Add(fields, x)) && Elements(Add(fields, x)) == Elements(fields) + {x}
  {
  }

  lemma {:induction false} WalkListElements(vs: seq<Operand>, fields: seq<string>)
    requires Distinct(fields)
    ensures Distinct(WalkList(vs, fields)) && Elements(WalkList(vs, fields)) == Elements(fields) + ListFields(vs)
  {
    if vs != [] {
      if vs[0].Field? { AddElements(fields, vs[0].path); }
      WalkListElements(vs[1..], WalkOperand(vs[0], fields));
    }
  }

  lemma {:induction false} WalkElements(a: Ast, fields: seq<string>)
    requires Distinct(fields)
    ensures Distinct(Walk(a, fields)) && Elements(Walk(a, fields)) == Elements(fields) + Fields(a)
  {
    match a
    case Const(_) =>
    case Ident(n) => AddElements(fields, n);
    case Exists(f) => AddElements(fields, f);
    case Not(e) => WalkElements(e, fields);
    case Bin(_, l, r) =>
      WalkElements(l, fields);
      WalkElements(r, Walk(l, fields));
    case Compare(_, l, r) =>
      WalkListElements([l, r], fields);
      assert [l, r][1..] == [r] && [r][1..] == [];
      assert ListFields([r]) == OperandFields(r) + ListFields([]);
    case Member(f, vs) =>
      AddElements(fields, f);
      WalkListElements(vs, Add(fields, f));
  }

  /** The reported fields are exactly those of the tree, each once, in strictly increasing order. */
  lemma FieldReferencesExact(a: Ast)
    ensures Elements(FieldReferences(a)) == Fields(a)
    ensures forall i, j :: 0 <= i < j < |FieldReferences(a)| ==> TextLess(FieldReferences(a)[i], FieldReferences(a)[j])
  {
    var w, r := Walk(a, []), FieldReferences(a);
    WalkElements(a, []);
    TextIsTotal();
    SortDistinct(w, TextLess);
    SortPermutes(w, TextLess);
    forall x ensures x in r <==> x in w { assert x in multiset(r) <==> x in multiset(w); }
  }

  // ---- the parser object ----

  lemma {:induction false} TrimLeftIsSuffix(s: string)
    ensures exists n :: 0 <= n <= |s| && TrimLeft(s) == s[n..]
    ensures TrimLeft(s) != "" ==> !IsSpace(TrimLeft(s)[0])
  {
    if s != "" && IsSpace(s[0]) {
      TrimLeftIsSuffix(s[1..]);
      var n :| 0 <= n <= |s[1..]| && TrimLeft(s[1..]) == s[1..][n..];
      assert TrimLeft(s) == s[n + 1..];
    } else {
      assert TrimLeft(s) == s[0..];
    }
  }

  lemma {:induction false} TrimRightIsPrefix(s: string)
    ensures TrimRight(s) <= s
    ensures TrimRight(s) != "" ==> !IsSpace(TrimRight(s)[|TrimRight(s)| - 1])
  {
    if s != "" && IsSpace(s[|s| - 1]) { TrimRightIsPrefix(s[..|s| - 1]); }
  }

  lemma TrimIsTight(s: string)
    ensures Tight(Trim(s)) && Trim(Trim(s)) == Trim(s)
  {
    TrimLeftIsSuffix(s);
    TrimRightIsPrefix(TrimLeft(s));
    TrimTight(Trim(s));
  }

  datatype ParseResult = Valid(ast: Ast, fieldReferences: seq<string>) | Invalid(reason: ParseError)

  class VELParser {
    const maxDepth: int
    var cache: map<string, Ast>

    /** The memo holds only what a fresh parser would answer. */
    ghost predicate Valid()
      reads this
    {
      forall k :: k in cache ==> Fresh(k, maxDepth) == Ok(cache[k])
    }

    constructor (maxDepth: int)
      ensures Valid() && this.maxDepth == maxDepth && cache == map[]
    {
      this.maxDepth := maxDepth;
      cache := map[];
    }

    method ParseToAst(condition: string) returns (r: Result<Ast>)
      requires Valid()
      modifies this`cache
      ensures Valid()
      ensures r == Fresh(condition, maxDepth)
      ensures cache == if r.Ok? then old(cache)[Trim(condition) := r.value] else old(cache)
    {
      var normalized := Trim(condition);
      TrimIsTight(condition);
      if normalized in cache {
        return Ok(cache[normalized]);
      }
      if BadOperators(normalized) {
        return Err(InvalidComparison);
      }
      r := ParseExpression(normalized, 0, maxDepth);
      if r.Ok? {
        cache := cache[normalized := r.value];
      }
    }

    /** Answers do not depend on what was parsed before, and failures leave the memo alone. */
    method Parse(condition: string) returns (r: ParseResult)
      requires Valid()
      modifies this`cache
      ensures Valid()
      ensures match Fresh(condition, maxDepth)
              case Ok(a) => r == ParseResult.Valid(a, FieldReferences(a)) && cache == old(cache)[Trim(condition) := a]
              case Err(e) => r == Invalid(e) && cache == old(cache)
    {
      TrimIsTight(condition);
      var a := ParseToAst(Trim(condition));
      match a
      case Ok(tree) => return ParseResult.Valid(tree, FieldReferences(tree));
      case Err(e) => return Invalid(e);
    }
  }
}
