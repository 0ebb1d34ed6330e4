// The condition language (VEL): its syntax trees, their meaning under a valuation of the atoms,
// and the canonical, fully parenthesised way of writing a tree down.

module VelAst {
  import opened Text
  import opened Sorting

  datatype Conn = And | Or

  datatype CmpOp = Le | Ge | Eq | Ne | Lt | Gt

  /** `Number` literals are kept as their decimal token. */
  datatype Scalar = Str(text: string) | Num(token: string) | Bool(flag: bool)

  datatype Operand = Field(path: string) | Lit(value: Scalar)

  datatype Ast =
    | Const(value: bool)
    | Ident(name: string)
    | Not(expr: Ast)
    | Bin(op: Conn, left: Ast, right: Ast)
    | Exists(field: string)
    | Compare(cmp: CmpOp, lhs: Operand, rhs: Operand)
    | Member(elem: string, values: seq<Operand>)

  // ---- meaning ----

  /** Truth of a tree, given the truth of its identifiers, EXISTS tests, comparisons and IN tests. */
  predicate Eval(a: Ast, atom: Ast -> bool) {
    match a
    case Const(v) => v
    case Not(e) => !Eval(e, atom)
    case Bin(And, l, r) => Eval(l, atom) && Eval(r, atom)
    case Bin(Or, l, r) => Eval(l, atom) || Eval(r, atom)
    case _ => atom(a)
  }

  predicate AllTrue(es: seq<Ast>, atom: Ast -> bool) {
    forall i :: 0 <= i < |es| ==> Eval(es[i], atom)
  }

  predicate SomeTrue(es: seq<Ast>, atom: Ast -> bool) {
    exists i :: 0 <= i < |es| && Eval(es[i], atom)
  }

  function Max(a: int, b: int): int {
    if a < b then b else a
  }

  /** Connectives on the longest path. */
  function Height(a: Ast): nat {
    match a
    case Not(e) => 1 + Height(e)
    case Bin(_, l, r) => 1 + Max(Height(l), Height(r))
    case _ => 0
  }

  /** Height with the left spine of one repeated connective counted once. */
  function SpineHeight(a: Ast): nat {
    match a
    case Not(e) => 1 + SpineHeight(e)
    case Bin(op, l, r) =>
      var left := if l.Bin? && l.op == op then SpineHeight(l) else 1 + SpineHeight(l);
      Max(left, 1 + SpineHeight(r))
    case _ => 0
  }

  // ---- the fields a tree mentions ----

  function OperandFields(o: Operand): set<string> {
    if o.Field? then {o.path} else {}
  }

  function ListFields(vs: seq<Operand>): set<string> {
    if vs == [] then {} else OperandFields(vs[0]) + ListFields(vs[1..])
  }

  function Fields(a: Ast): set<string> {
    match a
    case Const(_) => {}
    case Ident(n) => {n}
    case Not(e) => Fields(e)
    case Bin(_, l, r) => Fields(l) + Fields(r)
    case Exists(f) => {f}
    case Compare(_, l, r) => OperandFields(l) + OperandFields(r)
    case Member(f, vs) => {f} + ListFields(vs)
  }

  // ---- the safe alphabet ----

  predicate WordStart(c: char) {
    IsLetter(c) || c == '_'
  }

  predicate WordChar(c: char) {
    IsLetter(c) || IsDigit(c) || c == '_' || c == '.' || c == '-'
  }

  /** `/^[a-zA-Z_][a-zA-Z0-9_.-]*$/` */
  predicate FieldPath(s: string) {
    s != "" && WordStart(s[0]) && forall i :: 0 <= i < |s| ==> WordChar(s[i])
  }

  /** `s` starts with the lower-case word `w`, ignoring case. */
  predicate WordAt(s: string, w: string) {
    |w| <= |s| && forall i :: 0 <= i < |w| ==> Lower(s[i]) == w[i]
  }

  predicate IsWord(s: string, w: string) {
    |s| == |w| && WordAt(s, w)
  }

  const TRIVIAL_TRUE: seq<string> := ["always", "true", "none", "n/a", "not_applicable"]

  predicate TrivialTrue(s: string) {
    || IsWord(s, TRIVIAL_TRUE[0]) || IsWord(s, TRIVIAL_TRUE[1]) || IsWord(s, TRIVIAL_TRUE[2])
    || IsWord(s, TRIVIAL_TRUE[3]) || IsWord(s, TRIVIAL_TRUE[4])
  }

  predicate TrivialFalse(s: string) {
    IsWord(s, "false") || IsWord(s, "never")
  }

  predicate Keyword(s: string) {
    IsWord(s, "and") || IsWord(s, "or") || IsWord(s, "not") || IsWord(s, "exists") || IsWord(s, "in")
  }

  predicate SafeName(s: string) {
    FieldPath(s) && !Keyword(s) && !TrivialTrue(s) && !TrivialFalse(s)
  }

  predicate OperatorChar(c: char) {
    c == '<' || c == '>' || c == '=' || c == '!'
  }

  predicate QuoteChar(c: char) {
    c == '"' || c == '\''
  }

  predicate GroupChar(c: char) {
    c == '(' || c == ')' || c == '[' || c == ']'
  }

  /** A string literal may hold anything but quotes, parentheses, brackets, operators and line ends. */
  predicate SafeText(s: string) {
    forall i :: 0 <= i < |s| ==> !QuoteChar(s[i]) && !GroupChar(s[i]) && !OperatorChar(s[i]) && !IsLineEnd(s[i])
  }

  /** `/^-?\d+(\.\d+)?$/` */
  predicate NumberToken(s: string) {
    var body := if s != "" && s[0] == '-' then s[1..] else s;
    var n := DigitRun(body);
    var rest := body[n..];
    n > 0 && (rest == "" || (rest[0] == '.' && |rest| > 1 && DigitRun(rest[1..]) == |rest| - 1))
  }

  predicate SafeOperand(o: Operand) {
    match o
    case Field(p) => SafeName(p)
    case Lit(Str(t)) => SafeText(t)
    case Lit(Num(k)) => NumberToken(k)
    case Lit(Bool(_)) => true
  }

  /** In a list, a bare word without a dot stands for a string, so a field must carry a dot. */
  predicate SafeElement(o: Operand) {
    SafeOperand(o) && (o.Field? ==> '.' in o.path)
  }

  predicate Safe(a: Ast) {
    match a
    case Const(_) => true
    case Ident(n) => SafeName(n)
    case Not(e) => Safe(e)
    case Bin(_, l, r) => Safe(l) && Safe(r)
    case Exists(f) => SafeName(f)
    case Compare(_, l, r) => SafeOperand(l) && SafeOperand(r)
    case Member(f, vs) => SafeName(f) && forall i :: 0 <= i < |vs| ==> SafeElement(vs[i])
  }

  // ---- canonical text ----

  function ConnText(op: Conn): string {
    match op case And => " AND " case Or => " OR "
  }

  function CmpText(op: CmpOp): string {
    match op case Le => "<=" case Ge => ">=" case Eq => "==" case Ne => "!=" case Lt => "<" case Gt => ">"
  }

  function OperandText(o: Operand): string {
    match o
    case Field(p) => p
    case Lit(Str(t)) => "\"" + t + "\""
    case Lit(Num(k)) => k
    case Lit(Bool(b)) => if b then "true" else "false"
  }

  function ListText(vs: seq<Operand>): string {
    if vs == [] then ""
    else if |vs| == 1 then OperandText(vs[0])
    else OperandText(vs[0]) + ", " + ListText(vs[1..])
  }

  predicate IsConnective(a: Ast) {
    a.Not? || a.Bin?
  }

  /** A tree without the parentheses that go around a connective. */
  function Body(a: Ast): string
    decreases a, 0
  {
    match a
    case Const(v) => if v then "true" else "false"
    case Ident(n) => n
    case Not(e) => "NOT " + Print(e)
    case Bin(op, l, r) => Print(l) + (ConnText(op) + Print(r))
    case Exists(f) => "EXISTS " + f
    case Compare(c, l, r) => OperandText(l) + (" " + (CmpText(c) + (" " + OperandText(r))))
    case Member(f, vs) => f + (" IN [" + (ListText(vs) + "]"))
  }

  /** Fully parenthesised printing. */
  function Print(a: Ast): string
    decreases a, 1
  {
    if IsConnective(a) then "(" + Body(a) + ")" else Body(a)
  }

  function Prints(es: seq<Ast>): (r: seq<string>)
    ensures |r| == |es|
    ensures forall i :: 0 <= i < |es| ==> r[i] == Print(es[i])
  {
    if es == [] then [] else [Print(es[0])] + Prints(es[1..])
  }

  /** Trees written one after another with one connective between them. */
  function ChainText(op: Conn, es: seq<Ast>): string {
    Join(Prints(es), ConnText(op))
  }

  /** Left fold of a nonempty list. */
  function Fold(op: Conn, es: seq<Ast>): Ast
    requires es != []
  {
    if |es| == 1 then es[0] else Bin(op, Fold(op, es[..|es| - 1]), es[|es| - 1])
  }
}
