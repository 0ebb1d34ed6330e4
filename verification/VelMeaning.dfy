// What the parser's answers mean: precedence of the connectives, the truth of a split, and the
// depth limit.

module VelMeaning {
  import opened Text
  import opened VelAst
  import opened VelScan
  import opened VelParse
  import opened VelSkip
  import opened VelAtoms
  import opened VelRoundTrip

  // ---- folds ----

  /** A folded OR is the disjunction of its parts and a folded AND their conjunction. */
  lemma {:induction false} FoldEval(op: Conn, es: seq<Ast>, atom: Ast -> bool)
    requires es != []
    ensures Eval(Fold(op, es), atom) == if op == And then AllTrue(es, atom) else SomeTrue(es, atom)
  {
    if |es| == 1 {
      assert SomeTrue(es, atom) == Eval(es[0], atom);
    } else {
      var front := es[..|es| - 1];
      FoldEval(op, front, atom);
      assert forall i :: 0 <= i < |front| ==> front[i] == es[i];
      if op == Or && SomeTrue(es, atom) {
        var i :| 0 <= i < |es| && Eval(es[i], atom);
        assert i < |front| ==> Eval(front[i], atom);
      }
    }
  }

  /** For any text that splits at the top level, the answer has the truth of the disjunction (OR) or
      of the conjunction (AND, tried only when OR does not split) of the parts parsed one by one. */
  lemma SplitMeaning(s: string, op: Conn, depth: int, maxDepth: int, atom: Ast -> bool)
    requires depth <= maxDepth && s != "" && !TrivialTrue(s) && !TrivialFalse(s)
    requires |SplitTopLevel(s, op)| > 1 && (op == And ==> |SplitTopLevel(s, Or)| <= 1)
    requires ParseStripped(s, depth, maxDepth).Ok?
    ensures var parts := SplitTopLevel(s, op);
            && (forall i :: 0 <= i < |parts| ==> ParseExpression(parts[i], depth + 1, maxDepth).Ok?)
            && (Eval(ParseStripped(s, depth, maxDepth).value, atom) <==>
                if op == Or
                then exists i :: 0 <= i < |parts| &&
                       Eval(ParseExpression(parts[i], depth + 1, maxDepth).value, atom)
                else forall i :: 0 <= i < |parts| ==> Eval(ParseExpression(parts[i], depth + 1, maxDepth).value, atom))
  {
    var parts := SplitTopLevel(s, op);
    var trees := ParseParts(parts, depth + 1, maxDepth).value;
    PartsAreParsed(parts, depth + 1, maxDepth);
    FoldEval(op, trees, atom);
  }

  lemma {:induction false} PartsAreParsed(parts: seq<string>, depth: int, maxDepth: int)
    requires ParseParts(parts, depth, maxDepth).Ok?
    ensures forall i :: 0 <= i < |parts| ==>
              ParseExpression(parts[i], depth, maxDepth) == Ok(ParseParts(parts, depth, maxDepth).value[i])
  {
    if parts != [] {
      PartsAreParsed(parts[1..], depth, maxDepth);
      forall i | 0 <= i < |parts|
        ensures ParseExpression(parts[i], depth, maxDepth) == Ok(ParseParts(parts, depth, maxDepth).value[i])
      {
        if i > 0 { assert parts[i] == parts[1..][i - 1]; }
      }
    }
  }

  // ---- precedence ----

  /** Groups of trees: AND inside a group, OR between groups, no parentheses around either. */
  ghost predicate SafeGroups(groups: seq<seq<Ast>>) {
    forall k :: 0 <= k < |groups| ==> SafeGroup(groups[k])
  }

  ghost predicate SafeGroup(g: seq<Ast>) {
    g != [] && forall i :: 0 <= i < |g| ==> Safe(g[i])
  }

  function GroupTexts(groups: seq<seq<Ast>>): (r: seq<string>)
    ensures |r| == |groups|
    ensures forall i :: 0 <= i < |groups| ==> r[i] == ChainText(And, groups[i])
  {
    if groups == [] then [] else [ChainText(And, groups[0])] + GroupTexts(groups[1..])
  }

  function FoldGroups(groups: seq<seq<Ast>>): (r: seq<Ast>)
    requires forall k :: 0 <= k < |groups| ==> groups[k] != []
    ensures |r| == |groups|
    ensures forall i :: 0 <= i < |groups| ==> r[i] == Fold(And, groups[i])
  {
    if groups == [] then [] else [Fold(And, groups[0])] + FoldGroups(groups[1..])
  }

  /** Depth that a group needs: one more than its trees when there is an AND to split at. */
  function GroupHeight(g: seq<Ast>): nat {
    if |g| > 1 then 1 + MaxHeight(g) else MaxHeight(g)
  }

  function GroupsHeight(groups: seq<seq<Ast>>): nat {
    if groups == [] then 0 else Max(GroupHeight(groups[0]), GroupsHeight(groups[1..]))
  }

  lemma ChainNotWrapped(op: Conn, es: seq<Ast>, rest: string)
    requires es != [] && (forall i :: 0 <= i < |es| ==> Safe(es[i])) && (|es| > 1 || rest != "")
    ensures !Wrapped(ChainText(op, es) + rest)
  {
    if |es| == 1 {
      NotWrapped(es[0], rest);
    } else {
      ChainStep(op, es);
      var u := (ConnText(op) + ChainText(op, es[1..])) + rest;
      assert ChainText(op, es) + rest == Print(es[0]) + u;
      NotWrapped(es[0], u);
    }
  }

  lemma OneInGroup(g: seq<Ast>, depth: int, maxDepth: int)
    requires |g| == 1 && Safe(g[0])
    ensures ParseExpression(ChainText(And, g), depth, maxDepth)
         == if depth + GroupHeight(g) <= maxDepth then Ok(Fold(And, g)) else Err(DepthExceeded)
  {
    RoundTripAt(g[0], depth, maxDepth);
    assert MaxHeight(g) == Max(Height(g[0]), MaxHeight(g[1..])) == Height(g[0]) by { assert g[1..] == []; }
  }

  lemma MoreInGroup(g: seq<Ast>, depth: int, maxDepth: int)
    requires |g| > 1 && depth <= maxDepth && forall i :: 0 <= i < |g| ==> Safe(g[i])
    ensures ParseExpression(ChainText(And, g), depth, maxDepth)
         == if depth + GroupHeight(g) <= maxDepth then Ok(Fold(And, g)) else Err(DepthExceeded)
  {
    var s := ChainText(And, g);
    ChainShape(And, g);
    TrimTight(s);
    assert s + "" == s;
    ChainNotWrapped(And, g, "");
    ChainStripped(And, g, depth, maxDepth);
    PartsRoundTrip(g, depth + 1, maxDepth);
  }

  lemma GroupRoundTrip(g: seq<Ast>, depth: int, maxDepth: int)
    requires g != [] && forall i :: 0 <= i < |g| ==> Safe(g[i])
    ensures ParseExpression(ChainText(And, g), depth, maxDepth)
         == if depth + GroupHeight(g) <= maxDepth then Ok(Fold(And, g)) else Err(DepthExceeded)
  {
    if |g| == 1 {
      OneInGroup(g, depth, maxDepth);
    } else if depth <= maxDepth {
      MoreInGroup(g, depth, maxDepth);
    }
  }

  lemma {:induction false} GroupsRoundTrip(groups: seq<seq<Ast>>, depth: int, maxDepth: int)
    requires SafeGroups(groups) && groups != []
    ensures ParseParts(GroupTexts(groups), depth, maxDepth)
         == if depth + GroupsHeight(groups) <= maxDepth then Ok(FoldGroups(groups)) else Err(DepthExceeded)
  {
    var rest := groups[1..];
    assert SafeGroup(groups[0]);
    GroupRoundTrip(groups[0], depth, maxDepth);
    GroupsStep(groups);
    if rest != [] {
      assert SafeGroups(rest) by {
        forall k | 0 <= k < |rest| ensures SafeGroup(rest[k]) { assert SafeGroup(groups[k + 1]); }
      }
      GroupsRoundTrip(rest, depth, maxDepth);
    }
  }

  lemma GroupsStep(groups: seq<seq<Ast>>)
    requires groups != [] && forall k :: 0 <= k < |groups| ==> groups[k] != []
    ensures GroupTexts(groups)[0] == ChainText(And, groups[0]) && GroupTexts(groups)[1..] == GroupTexts(groups[1..])
    ensures FoldGroups(groups) == [Fold(And, groups[0])] + FoldGroups(groups[1..])
  {
  }

  function OrText(groups: seq<seq<Ast>>): string {
    Join(GroupTexts(groups), ConnText(Or))
  }

  lemma GroupsAreSegments(groups: seq<seq<Ast>>)
    requires SafeGroups(groups)
    ensures Segments(GroupTexts(groups), Or)
  {
    forall i | 0 <= i < |groups| ensures Segment(GroupTexts(groups)[i], Or) { ChainIsSegment(And, groups[i], Or); }
  }

  lemma OrTextShape(groups: seq<seq<Ast>>)
    requires SafeGroups(groups) && |groups| > 1
    ensures var s := OrText(groups);
            && s != "" && Tight(s) && StripOuterParens(Trim(s)) == s
            && !TrivialTrue(s) && !TrivialFalse(s)
  {
    var s := OrText(groups);
    GroupsAreSegments(groups);
    JoinShape(GroupTexts(groups), ConnText(Or));
    TrimTight(s);
    var head, rest := ChainText(And, groups[0]), ConnText(Or) + Join(GroupTexts(groups)[1..], ConnText(Or));
    assert s == head + rest;
    ChainNotWrapped(And, groups[0], rest);
    SpacedIsNotTrivial(s, |head|);
  }

  lemma OrTextStripped(groups: seq<seq<Ast>>, depth: int, maxDepth: int)
    requires SafeGroups(groups) && |groups| > 1 && depth <= maxDepth
    ensures ParseStripped(OrText(groups), depth, maxDepth)
         == Folded(Or, ParseParts(GroupTexts(groups), depth + 1, maxDepth))
  {
    OrTextShape(groups);
    GroupsAreSegments(groups);
    SplitJoined(Or, GroupTexts(groups));
  }

  lemma OrTextParses(groups: seq<seq<Ast>>, depth: int, maxDepth: int)
    requires SafeGroups(groups) && |groups| > 1
    ensures ParseExpression(OrText(groups), depth, maxDepth)
         == if depth + 1 + GroupsHeight(groups) <= maxDepth then Ok(Fold(Or, FoldGroups(groups)))
            else Err(DepthExceeded)
  {
    if depth <= maxDepth {
      assert StripOuterParens(Trim(OrText(groups))) == OrText(groups) by { OrTextShape(groups); }
      OrTextStripped(groups, depth, maxDepth);
      GroupsRoundTrip(groups, depth + 1, maxDepth);
    }
  }

  lemma {:induction false} CleanJoin(xs: seq<string>, op: Conn)
    requires xs != [] && forall i :: 0 <= i < |xs| ==> Clean(xs[i])
    ensures Clean(Join(xs, ConnText(op)))
  {
    if |xs| > 1 {
      CleanJoin(xs[1..], op);
      CleanBin(xs[0], op, Join(xs[1..], ConnText(op)));
    }
  }

  lemma CleanGroups(groups: seq<seq<Ast>>)
    requires SafeGroups(groups) && groups != []
    ensures Clean(OrText(groups))
  {
    forall i | 0 <= i < |groups| ensures Clean(GroupTexts(groups)[i]) {
      var g := groups[i];
      forall j | 0 <= j < |g| ensures Clean(Prints(g)[j]) { CleanPrint(g[j]); }
      CleanJoin(Prints(g), And);
    }
    CleanJoin(GroupTexts(groups), Or);
  }

  lemma FreshClean(s: string, maxDepth: int)
    requires Clean(s) && Tight(s)
    ensures Fresh(s, maxDepth) == ParseExpression(s, 0, maxDepth)
  {
    TrimTight(s);
    assert s + "" == s;
  }

  /** AND binds tighter than OR: written without parentheses, groups of conjuncts parse to the left
      fold by OR of the left folds by AND, exactly when the depth limit allows for them. */
  lemma Precedence(groups: seq<seq<Ast>>, maxDepth: int)
    requires SafeGroups(groups) && |groups| > 1
    ensures Fresh(OrText(groups), maxDepth)
         == if 1 + GroupsHeight(groups) <= maxDepth then Ok(Fold(Or, FoldGroups(groups))) else Err(DepthExceeded)
  {
    OrTextShape(groups);
    CleanGroups(groups);
    FreshClean(OrText(groups), maxDepth);
    OrTextParses(groups, 0, maxDepth);
  }

  /** ... and so it is true exactly when all trees of some group are. */
  lemma PrecedenceMeaning(groups: seq<seq<Ast>>, maxDepth: int, atom: Ast -> bool)
    requires SafeGroups(groups) && |groups| > 1 && 1 + GroupsHeight(groups) <= maxDepth
    ensures Fresh(OrText(groups), maxDepth).Ok?
    ensures Eval(Fresh(OrText(groups), maxDepth).value, atom)
       <==> exists i :: 0 <= i < |groups| && AllTrue(groups[i], atom)
  {
    Precedence(groups, maxDepth);
    var folded := FoldGroups(groups);
    FoldEval(Or, folded, atom);
    forall i | 0 <= i < |groups| ensures Eval(folded[i], atom) == AllTrue(groups[i], atom) {
      FoldEval(And, groups[i], atom);
    }
    if SomeTrue(folded, atom) {
      var i :| 0 <= i < |folded| && Eval(folded[i], atom);
      assert AllTrue(groups[i], atom);
    }
    if i :| 0 <= i < |groups| && AllTrue(groups[i], atom) {
      assert Eval(folded[i], atom);
    }
  }

  // ---- depth ----

  lemma {:induction false} FoldSpine(op: Conn, es: seq<Ast>, h: nat)
    requires es != [] && forall i :: 0 <= i < |es| ==> SpineHeight(es[i]) <= h
    ensures SpineHeight(Fold(op, es)) <= h + 1
    ensures |es| == 1 ==> SpineHeight(Fold(op, es)) <= h
  {
    if |es| > 1 { FoldSpine(op, es[..|es| - 1], h); }
  }

  /** Whatever the text, an accepted tree nests at most `maxDepth` deep once the left spines of
      repeated connectives are collapsed. */
  lemma {:induction false} DepthBound(input: string, depth: int, maxDepth: int)
    requires ParseExpression(input, depth, maxDepth).Ok?
    ensures depth <= maxDepth
    ensures SpineHeight(ParseExpression(input, depth, maxDepth).value) <= maxDepth - depth
    decreases Budget(depth, maxDepth), 1, 0
  {
    StrippedDepthBound(StripOuterParens(Trim(input)), depth, maxDepth);
  }

  lemma {:induction false} StrippedDepthBound(s: string, depth: int, maxDepth: int)
    requires depth <= maxDepth && ParseStripped(s, depth, maxDepth).Ok?
    ensures SpineHeight(ParseStripped(s, depth, maxDepth).value) <= maxDepth - depth
    decreases Budget(depth, maxDepth), 0, 0
  {
    if s == "" || TrivialTrue(s) || TrivialFalse(s) {
    } else if |SplitTopLevel(s, Or)| > 1 {
      PartsDepthBound(SplitTopLevel(s, Or), depth + 1, maxDepth);
      FoldSpine(Or, ParseParts(SplitTopLevel(s, Or), depth + 1, maxDepth).value, maxDepth - depth - 1);
    } else if |SplitTopLevel(s, And)| > 1 {
      PartsDepthBound(SplitTopLevel(s, And), depth + 1, maxDepth);
      FoldSpine(And, ParseParts(SplitTopLevel(s, And), depth + 1, maxDepth).value, maxDepth - depth - 1);
    } else if NotPrefix(s) {
      DepthBound(TrimLeft(s[3..]), depth + 1, maxDepth);
    } else if s[0] == '!' {
      DepthBound(s[1..], depth + 1, maxDepth);
    } else {
      AtomSpine(s);
    }
  }

  lemma AtomSpine(s: string)
    requires ParseAtom(s).Ok?
    ensures SpineHeight(ParseAtom(s).value) == 0
  {
  }

  lemma {:induction false} PartsDepthBound(parts: seq<string>, depth: int, maxDepth: int)
    requires ParseParts(parts, depth, maxDepth).Ok? && parts != []
    ensures depth <= maxDepth
    ensures forall i :: 0 <= i < |parts| ==>
              SpineHeight(ParseParts(parts, depth, maxDepth).value[i]) <= maxDepth - depth
    decreases Budget(depth, maxDepth), 2, |parts|
  {
    DepthBound(parts[0], depth, maxDepth);
    if |parts| > 1 { PartsDepthBound(parts[1..], depth, maxDepth); }
  }

  function Copies(e: Ast, n: nat): (r: seq<Ast>)
    ensures |r| == n && forall i :: 0 <= i < n ==> r[i] == e
  {
    if n == 0 then [] else [e] + Copies(e, n - 1)
  }

  lemma {:induction false} FoldHeight(op: Conn, es: seq<Ast>)
    requires es != [] && forall i :: 0 <= i < |es| ==> Height(es[i]) == 0
    ensures Height(Fold(op, es)) == |es| - 1
  {
    if |es| > 1 { FoldHeight(op, es[..|es| - 1]); }
  }

  lemma {:induction false} FlatHeight(es: seq<Ast>)
    requires forall i :: 0 <= i < |es| ==> Height(es[i]) == 0
    ensures MaxHeight(es) == 0
  {
    if es != [] { FlatHeight(es[1..]); }
  }

  /** The plain height of an accepted tree is not bounded by the limit: a chain of `n + 1` conjuncts
      has height `n` and passes with a limit of one. */
  lemma HeightUnbounded(n: nat)
    requires n > 0
    ensures var g := Copies(Exists("f"), n + 1);
            && ParseExpression(ChainText(And, g), 0, 1) == Ok(Fold(And, g))
            && Height(Fold(And, g)) == n
  {
    var g := Copies(Exists("f"), n + 1);
    assert Safe(Exists("f"));
    FlatHeight(g);
    FoldHeight(And, g);
    GroupRoundTrip(g, 0, 1);
  }
}
