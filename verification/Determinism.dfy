// Comparing two output trees of the compiler, file by file and by digest. A tree is the list of its files
// in the order they were added. The hashes and the collation order are parameters.

module Determinism {
  import opened Text
  import opened Sorting

  type Bytes = seq<bv8>

  datatype File = File(path: string, bytes: Bytes)

  datatype Difference = MissingInRun1(path: string) | MissingInRun2(path: string) | BytesDiffer(path: string)

  /** Paths occur once: a tree is a map. */
  ghost predicate IsTree(t: seq<File>) {
    forall i, j :: 0 <= i < j < |t| ==> t[i].path != t[j].path
  }

  ghost function Contents(t: seq<File>): map<string, Bytes> {
    if t == [] then map[] else Contents(t[1..])[t[0].path := t[0].bytes]
  }

  predicate Has(t: seq<File>, path: string) {
    exists i :: 0 <= i < |t| && t[i].path == path
  }

  /** `tree.get(path)`, as a list of at most one element. */
  function Lookup(t: seq<File>, path: string): seq<Bytes> {
    if t == [] then [] else if t[0].path == path then [t[0].bytes] else Lookup(t[1..], path)
  }

  // ---- comparing ----

  /** Every path of either tree, once, in the default order. */
  function Paths(a: seq<File>, b: seq<File>): seq<string> {
    Sort(Union(a, b), TextLess)
  }

  function PathsOf(t: seq<File>): seq<string> {
    seq(|t|, i requires 0 <= i < |t| => t[i].path)
  }

  /** The paths of `a`, then those of `b` that are new. */
  function Union(a: seq<File>, b: seq<File>): seq<string> {
    if b == [] then PathsOf(a)
    else
      var f := b[|b| - 1];
      Union(a, b[..|b| - 1]) + (if Has(a, f.path) then [] else [f.path])
  }

  /** What the comparison reports about one path. */
  function Report(a: seq<File>, b: seq<File>, path: string): seq<Difference> {
    var left, right := Lookup(a, path), Lookup(b, path);
    if left == [] then [MissingInRun1(path)]
    else if right == [] then [MissingInRun2(path)]
    else if left != right then [BytesDiffer(path)]
    else []
  }

  function Reports(a: seq<File>, b: seq<File>, paths: seq<string>): seq<Difference> {
    if paths == [] then []
    else Reports(a, b, paths[..|paths| - 1]) + Report(a, b, paths[|paths| - 1])
  }

  function Compare(a: seq<File>, b: seq<File>): seq<Difference> {
    Reports(a, b, Paths(a, b))
  }

  method CompareTrees(a: seq<File>, b: seq<File>) returns (differences: seq<Difference>)
    ensures differences == Compare(a, b)
  {
    differences := [];
    var paths := Paths(a, b);
    assert paths[..0] == [];
    for i := 0 to |paths|
      invariant differences == Reports(a, b, paths[..i])
    {
      var path := paths[i];
      assert paths[..i + 1][..i] == paths[..i];
      var left, right := Lookup(a, path), Lookup(b, path);
      if left == [] {
        differences := differences + [MissingInRun1(path)];
      } else if right == [] {
        differences := differences + [MissingInRun2(path)];
      } else if left != right {
        differences := differences + [BytesDiffer(path)];
      }
    }
    assert paths[..|paths|] == paths;
  }

  lemma {:induction false} LookupIs(t: seq<File>, path: string)
    requires IsTree(t)
    ensures path in Contents(t) <==> Has(t, path)
    ensures Lookup(t, path) == if path in Contents(t) then [Contents(t)[path]] else []
  {
    if t != [] {
      LookupIs(t[1..], path);
      HasTail(t, path);
      if t[0].path == path { NotInTail(t); }
    }
  }

  lemma HasTail(t: seq<File>, path: string)
    requires t != []
    ensures Has(t, path) <==> t[0].path == path || Has(t[1..], path)
  {
    if i :| 0 <= i < |t[1..]| && t[1..][i].path == path { assert t[i + 1].path == path; }
    if i :| 0 < i < |t| && t[i].path == path { assert t[1..][i - 1].path == path; }
  }

  lemma NotInTail(t: seq<File>)
    requires t != [] && IsTree(t)
    ensures !Has(t[1..], t[0].path)
  {
    assert forall i :: 0 <= i < |t[1..]| ==> t[1..][i] == t[i + 1];
  }

  lemma {:induction false} UnionIs(a: seq<File>, b: seq<File>)
    requires IsTree(a) && IsTree(b)
    ensures Distinct(Union(a, b))
    ensures forall p :: p in Union(a, b) <==> Has(a, p) || Has(b, p)
  {
    if b != [] {
      var front, f := b[..|b| - 1], b[|b| - 1];
      UnionIs(a, front);
      assert !Has(front, f.path) by { assert forall i :: 0 <= i < |front| ==> front[i] == b[i]; }
      forall p ensures Has(b, p) <==> Has(front, p) || p == f.path {
        if i :| 0 <= i < |front| && front[i].path == p { assert b[i].path == p; }
        if i :| 0 <= i < |b| && b[i].path == p { if i < |front| { assert front[i].path == p; } }
        assert b[|b| - 1].path == f.path;
      }
      UnionAppend(Union(a, front), f.path);
    }
  }

  lemma UnionAppend(u: seq<string>, p: string)
    ensures Distinct(u) && p !in u ==> Distinct(u + [p])
    ensures forall q :: q in u + [p] <==> q in u || q == p
  {
  }

  lemma PathsAre(a: seq<File>, b: seq<File>)
    requires IsTree(a) && IsTree(b)
    ensures Distinct(Paths(a, b))
    ensures forall i, j :: 0 <= i < j < |Paths(a, b)| ==> TextLess(Paths(a, b)[i], Paths(a, b)[j])
    ensures forall p :: p in Paths(a, b) <==> Has(a, p) || Has(b, p)
  {
    UnionIs(a, b);
    TextIsTotal();
    SortDistinct(Union(a, b), TextLess);
    SortPermutes(Union(a, b), TextLess);
    forall p ensures p in Paths(a, b) <==> p in Union(a, b) {
      assert p in multiset(Paths(a, b)) <==> p in multiset(Union(a, b));
    }
  }

  /** Whether the two trees disagree about a path. */
  ghost predicate Differs(a: seq<File>, b: seq<File>, p: string) {
    || (p in Contents(a)) != (p in Contents(b))
    || (p in Contents(a) && p in Contents(b) && Contents(a)[p] != Contents(b)[p])
  }

  /** The kind of a difference is the right one. */
  ghost predicate Describes(d: Difference, a: seq<File>, b: seq<File>) {
    match d
    case MissingInRun1(p) => p !in Contents(a) && p in Contents(b)
    case MissingInRun2(p) => p in Contents(a) && p !in Contents(b)
    case BytesDiffer(p) => p in Contents(a) && p in Contents(b) && Contents(a)[p] != Contents(b)[p]
  }

  lemma ReportIs(a: seq<File>, b: seq<File>, p: string)
    requires IsTree(a) && IsTree(b) && (Has(a, p) || Has(b, p))
    ensures Report(a, b, p) == [] <==> !Differs(a, b, p)
    ensures |Report(a, b, p)| <= 1
    ensures forall d :: d in Report(a, b, p) ==> d.path == p && Describes(d, a, b)
  {
    LookupIs(a, p);
    LookupIs(b, p);
  }

  ghost predicate AllDescribe(r: seq<Difference>, a: seq<File>, b: seq<File>) {
    forall d :: d in r ==> Describes(d, a, b)
  }

  ghost predicate Within(r: seq<Difference>, paths: seq<string>) {
    forall d :: d in r ==> d.path in paths
  }

  ghost predicate OncePerPath(r: seq<Difference>) {
    forall i, j :: 0 <= i < j < |r| ==> r[i].path != r[j].path
  }

  predicate Mentions(r: seq<Difference>, path: string) {
    exists i :: 0 <= i < |r| && r[i].path == path
  }

  lemma AppendOnce(r: seq<Difference>, front: seq<string>, x: seq<Difference>, last: string)
    requires OncePerPath(r) && Within(r, front) && last !in front
    requires |x| <= 1 && forall d :: d in x ==> d.path == last
    ensures OncePerPath(r + x) && Within(r + x, front + [last])
    ensures forall p :: Mentions(r, p) ==> Mentions(r + x, p)
    ensures x != [] ==> Mentions(r + x, last)
  {
    var all := r + x;
    assert forall i :: 0 <= i < |r| ==> all[i] == r[i] && r[i] in r;
    if x != [] { assert all[|r|] == x[0] && x[0] in x; }
    forall p | Mentions(r, p) ensures Mentions(all, p) {
      var i :| 0 <= i < |r| && r[i].path == p;
      assert all[i].path == p;
    }
  }

  lemma {:induction false} ReportsAre(a: seq<File>, b: seq<File>, paths: seq<string>)
    requires IsTree(a) && IsTree(b) && Distinct(paths)
    requires forall p :: p in paths ==> Has(a, p) || Has(b, p)
    ensures var r := Reports(a, b, paths); AllDescribe(r, a, b) && Within(r, paths) && OncePerPath(r)
    ensures forall p :: p in paths && Differs(a, b, p) ==> Mentions(Reports(a, b, paths), p)
  {
    if paths != [] {
      var front, last := paths[..|paths| - 1], paths[|paths| - 1];
      assert paths == front + [last];
      ReportsAre(a, b, front);
      ReportIs(a, b, last);
      AppendOnce(Reports(a, b, front), front, Report(a, b, last), last);
    }
  }

  /** The comparison names each path on which the trees disagree exactly once, with the right kind, and
      names no other. */
  lemma ComparisonIsExact(a: seq<File>, b: seq<File>)
    requires IsTree(a) && IsTree(b)
    ensures AllDescribe(Compare(a, b), a, b) && OncePerPath(Compare(a, b))
    ensures forall p :: Differs(a, b, p) <==> Mentions(Compare(a, b), p)
  {
    var r := Compare(a, b);
    PathsAre(a, b);
    ReportsAre(a, b, Paths(a, b));
    forall p ensures Differs(a, b, p) <==> Mentions(r, p) {
      LookupIs(a, p);
      LookupIs(b, p);
      if Differs(a, b, p) { assert p in Paths(a, b); }
      if i :| 0 <= i < |r| && r[i].path == p {
        assert r[i] in r;
        assert Describes(r[i], a, b);
      }
    }
  }

  lemma EqualIffNowhereDiffers(a: seq<File>, b: seq<File>)
    ensures Contents(a) == Contents(b) <==> forall p :: !Differs(a, b, p)
  {
    if forall p :: !Differs(a, b, p) {
      forall p ensures p in Contents(a) <==> p in Contents(b) { assert !Differs(a, b, p); }
      forall p | p in Contents(a) ensures Contents(a)[p] == Contents(b)[p] { assert !Differs(a, b, p); }
    }
  }

  /** It reports nothing exactly when the trees are equal. */
  lemma NoDifferenceIffEqual(a: seq<File>, b: seq<File>)
    requires IsTree(a) && IsTree(b)
    ensures Compare(a, b) == [] <==> Contents(a) == Contents(b)
  {
    var r := Compare(a, b);
    ComparisonIsExact(a, b);
    EqualIffNowhereDiffers(a, b);
    if r != [] { assert Mentions(r, r[0].path); }
  }

  // ---- the digest ----

  type Collation = (string, string) -> bool

  /** The order of the files: by their paths. */
  function ByPath(less: Collation): (File, File) -> bool {
    (x: File, y: File) => less(x.path, y.path)
  }

  function Line(f: File, hb: Bytes -> string): string {
    f.path + (":" + hb(f.bytes))
  }

  function Lines(t: seq<File>, hb: Bytes -> string): seq<string> {
    seq(|t|, i requires 0 <= i < |t| => Line(t[i], hb))
  }

  /** The digested text: one line per file, in order. */
  function DigestText(t: seq<File>, less: Collation, hb: Bytes -> string): string {
    Join(Lines(Sort(t, ByPath(less)), hb), "\n")
  }

  function TreeDigest(t: seq<File>, less: Collation, hb: Bytes -> string, h: string -> string): string {
    h(DigestText(t, less, hb))
  }

  /** A collation, and one that tells the paths of a tree apart. */
  ghost predicate Orders(less: Collation, t: seq<File>) {
    && StrictWeak(less)
    && forall i, j :: 0 <= i < |t| && 0 <= j < |t| && t[i].path != t[j].path ==>
         less(t[i].path, t[j].path) || less(t[j].path, t[i].path)
  }

  lemma {:induction false} ContentsAre(t: seq<File>)
    requires IsTree(t)
    ensures forall f :: f in t <==> f.path in Contents(t) && Contents(t)[f.path] == f.bytes
  {
    if t != [] {
      ContentsAre(t[1..]);
      assert t == [t[0]] + t[1..];
      LookupIs(t[1..], t[0].path);
      NotInTail(t);
    }
  }

  lemma TreeIsDistinct(t: seq<File>)
    requires IsTree(t)
    ensures Distinct(t)
  {
  }

  lemma SameFiles(a: seq<File>, b: seq<File>)
    requires IsTree(a) && IsTree(b)
    ensures Contents(a) == Contents(b) <==> multiset(a) == multiset(b)
  {
    ContentsAre(a);
    ContentsAre(b);
    if Contents(a) == Contents(b) {
      TreeIsDistinct(a);
      TreeIsDistinct(b);
      forall f ensures multiset(a)[f] == multiset(b)[f] {
        DistinctCountsOne(a, f);
        DistinctCountsOne(b, f);
        assert f in a <==> f in b;
      }
    }
    if multiset(a) == multiset(b) {
      forall p ensures !Differs(a, b, p) {
        if p in Contents(a) { assert File(p, Contents(a)[p]) in a; assert File(p, Contents(a)[p]) in multiset(b); }
        if p in Contents(b) { assert File(p, Contents(b)[p]) in b; assert File(p, Contents(b)[p]) in multiset(a); }
      }
      EqualIffNowhereDiffers(a, b);
    }
  }

  lemma ByPathIsWeak(less: Collation)
    requires StrictWeak(less)
    ensures StrictWeak(ByPath(less))
  {
    var lt := ByPath(less);
    forall x: File ensures !lt(x, x) { assert !less(x.path, x.path); }
    forall x: File, y: File, z: File | lt(x, y) && lt(y, z) ensures lt(x, z) {
      assert less(x.path, y.path) && less(y.path, z.path);
    }
    forall x: File, y: File, z: File | lt(x, z) ensures lt(x, y) || lt(y, z) {
      assert less(x.path, z.path) ==> less(x.path, y.path) || less(y.path, z.path);
    }
  }

  lemma OrderTellsApart(t: seq<File>, less: Collation, x: File, y: File)
    requires IsTree(t) && Orders(less, t) && x in t && y in t && x != y
    ensures ByPath(less)(x, y) || ByPath(less)(y, x)
  {
    var i :| 0 <= i < |t| && t[i] == x;
    var j :| 0 <= j < |t| && t[j] == y;
    assert x.path != y.path;
  }

  /** Equal trees are listed in the same order, whatever order they were filled in. */
  lemma SameListing(a: seq<File>, b: seq<File>, less: Collation)
    requires IsTree(a) && IsTree(b) && multiset(a) == multiset(b) && Orders(less, a)
    ensures Sort(a, ByPath(less)) == Sort(b, ByPath(less))
  {
    var lt := ByPath(less);
    var x, y := Sort(a, lt), Sort(b, lt);
    ByPathIsWeak(less);
    SortSorts(a, lt);
    SortSorts(b, lt);
    SortPermutes(a, lt);
    SortPermutes(b, lt);
    forall f, g | f in x && g in x && f != g ensures lt(f, g) || lt(g, f) {
      assert f in multiset(a) && g in multiset(a);
      OrderTellsApart(a, less, f, g);
    }
    SortedIsUnique(x, y, lt);
  }

  // ---- reading the digested text back ----

  ghost predicate CleanLines(xs: seq<string>) {
    forall i :: 0 <= i < |xs| ==> xs[i] != "" && Lacks(xs[i], '\n')
  }

  lemma JoinStarts(xs: seq<string>)
    requires xs != []
    ensures Join(xs, "\n") == if |xs| == 1 then xs[0] else xs[0] + (['\n'] + Join(xs[1..], "\n"))
    ensures |Join(xs, "\n")| >= |xs[0]|
  {
    assert "\n" == ['\n'];
  }

  lemma {:induction false} JoinInjective(xs: seq<string>, ys: seq<string>)
    requires CleanLines(xs) && CleanLines(ys) && Join(xs, "\n") == Join(ys, "\n")
    ensures xs == ys
  {
    if xs != [] && ys != [] {
      JoinStarts(xs);
      JoinStarts(ys);
      if |xs| == 1 && |ys| > 1 {
        OneIsNotMore(xs[0], ys);
      } else if |ys| == 1 && |xs| > 1 {
        OneIsNotMore(ys[0], xs);
      } else if |xs| > 1 {
        FirstMark(xs[0], Join(xs[1..], "\n"), ys[0], Join(ys[1..], "\n"), '\n');
        JoinInjective(xs[1..], ys[1..]);
        assert xs == [xs[0]] + xs[1..] && ys == [ys[0]] + ys[1..];
      }
    }
  }

  lemma OneIsNotMore(x: string, ys: seq<string>)
    requires |ys| > 1 && Lacks(x, '\n')
    ensures x != Join(ys, "\n")
  {
    var all := ys[0] + (['\n'] + Join(ys[1..], "\n"));
    assert all[|ys[0]|] == '\n';
    JoinStarts(ys);
  }

  /** Hashes without colon and line end, as hexadecimal digits are. */
  ghost predicate HexLike(hb: Bytes -> string) {
    forall x :: Lacks(hb(x), ':') && Lacks(hb(x), '\n')
  }

  ghost predicate CleanPaths(t: seq<File>) {
    forall i :: 0 <= i < |t| ==> Lacks(t[i].path, '\n')
  }

  /** No two different contents among the files of both trees have the same hash. */
  ghost predicate NoCollision(a: seq<File>, b: seq<File>, hb: Bytes -> string) {
    forall i, j :: 0 <= i < |a| && 0 <= j < |b| && hb(a[i].bytes) == hb(b[j].bytes) ==> a[i].bytes == b[j].bytes
  }

  lemma LineIsClean(f: File, hb: Bytes -> string)
    requires HexLike(hb) && Lacks(f.path, '\n')
    ensures Line(f, hb) != "" && Lacks(Line(f, hb), '\n')
  {
    assert Lacks(hb(f.bytes), '\n');
  }

  lemma SameLine(f: File, g: File, hb: Bytes -> string)
    requires HexLike(hb) && Line(f, hb) == Line(g, hb)
    ensures f.path == g.path && hb(f.bytes) == hb(g.bytes)
  {
    LastMark(f.path, hb(f.bytes), g.path, hb(g.bytes), ':');
  }

  lemma SortedMembers(t: seq<File>, lt: (File, File) -> bool)
    ensures |Sort(t, lt)| == |t| && forall f :: f in Sort(t, lt) <==> f in t
  {
    SortPermutes(t, lt);
    forall f ensures f in Sort(t, lt) <==> f in t { assert f in multiset(Sort(t, lt)) <==> f in multiset(t); }
  }

  lemma LinesAreClean(t: seq<File>, less: Collation, hb: Bytes -> string)
    requires HexLike(hb) && CleanPaths(t)
    ensures CleanLines(Lines(Sort(t, ByPath(less)), hb))
  {
    var s := Sort(t, ByPath(less));
    SortedMembers(t, ByPath(less));
    forall i | 0 <= i < |s| ensures Line(s[i], hb) != "" && Lacks(Line(s[i], hb), '\n') {
      assert s[i] in t;
      LineIsClean(s[i], hb);
    }
  }

  lemma TextDetermines(a: seq<File>, b: seq<File>, less: Collation, hb: Bytes -> string)
    requires HexLike(hb) && CleanPaths(a) && CleanPaths(b) && NoCollision(a, b, hb)
    requires DigestText(a, less, hb) == DigestText(b, less, hb)
    ensures Sort(a, ByPath(less)) == Sort(b, ByPath(less))
  {
    var x, y := Sort(a, ByPath(less)), Sort(b, ByPath(less));
    LinesAreClean(a, less, hb);
    LinesAreClean(b, less, hb);
    JoinInjective(Lines(x, hb), Lines(y, hb));
    assert |x| == |Lines(x, hb)| && |y| == |Lines(y, hb)|;
    forall i | 0 <= i < |x| ensures x[i] == y[i] {
      assert Lines(x, hb)[i] == Lines(y, hb)[i];
      SameLine(x[i], y[i], hb);
      SortedMembers(a, ByPath(less));
      SortedMembers(b, ByPath(less));
      assert x[i] in a && y[i] in b;
    }
  }

  /** Different trees have different digests, whatever the collation: the digested text lists every file. */
  lemma DigestDetermines(a: seq<File>, b: seq<File>, less: Collation, hb: Bytes -> string, h: string -> string)
    requires IsTree(a) && IsTree(b) && CleanPaths(a) && CleanPaths(b)
    requires HexLike(hb) && NoCollision(a, b, hb)
    requires h(DigestText(a, less, hb)) == h(DigestText(b, less, hb)) ==>
              DigestText(a, less, hb) == DigestText(b, less, hb)
    requires TreeDigest(a, less, hb, h) == TreeDigest(b, less, hb, h)
    ensures Contents(a) == Contents(b)
  {
    SameFiles(a, b);
    TextDetermines(a, b, less, hb);
    SortPermutes(a, ByPath(less));
    SortPermutes(b, ByPath(less));
  }

  /** Two trees have the same digest exactly when they are equal, provided no two hashed things collide
      and the collation tells their paths apart. */
  lemma DigestIffEqual(a: seq<File>, b: seq<File>, less: Collation, hb: Bytes -> string, h: string -> string)
    requires IsTree(a) && IsTree(b) && CleanPaths(a) && CleanPaths(b) && Orders(less, a)
    requires HexLike(hb) && NoCollision(a, b, hb)
    requires h(DigestText(a, less, hb)) == h(DigestText(b, less, hb)) ==>
              DigestText(a, less, hb) == DigestText(b, less, hb)
    ensures TreeDigest(a, less, hb, h) == TreeDigest(b, less, hb, h) <==> Contents(a) == Contents(b)
  {
    if TreeDigest(a, less, hb, h) == TreeDigest(b, less, hb, h) { DigestDetermines(a, b, less, hb, h); }
    SameFiles(a, b);
    if multiset(a) == multiset(b) { SameListing(a, b, less); }
  }

  // ---- when the order in which a tree was filled shows in its digest ----

  /** The same files, entered in any order. */
  ghost predicate Refilled(a: seq<File>, b: seq<File>) {
    IsTree(b) && Contents(b) == Contents(a)
  }

  function Swapped(t: seq<File>, i: nat, j: nat): seq<File>
    requires i < j < |t|
  {
    t[i := t[j]][j := t[i]]
  }

  lemma SwappedIsRefilled(t: seq<File>, i: nat, j: nat)
    requires i < j < |t| && IsTree(t)
    ensures Refilled(t, Swapped(t, i, j))
  {
    var s := Swapped(t, i, j);
    forall f ensures f in s <==> f in t {
      if f in t {
        var k :| 0 <= k < |t| && t[k] == f;
        assert s[if k == i then j else if k == j then i else k] == f;
      }
    }
    SameMembers(t, s);
  }

  lemma SameMembers(a: seq<File>, b: seq<File>)
    requires IsTree(a) && IsTree(b) && forall f :: f in a <==> f in b
    ensures Contents(a) == Contents(b)
  {
    ContentsAre(a);
    ContentsAre(b);
    forall p ensures !Differs(a, b, p) {
      if p in Contents(a) { assert File(p, Contents(a)[p]) in b; }
      if p in Contents(b) { assert File(p, Contents(b)[p]) in a; }
    }
    EqualIffNowhereDiffers(a, b);
  }

  /** Two files whose paths tie are listed in the order in which they were entered. */
  lemma TieShows(t: seq<File>, less: Collation, i: nat, j: nat)
    requires i < j < |t| && IsTree(t) && !less(t[i].path, t[j].path) && !less(t[j].path, t[i].path)
    ensures Sort(Swapped(t, i, j), ByPath(less)) != Sort(t, ByPath(less))
  {
    var lt, s := ByPath(less), Swapped(t, i, j);
    SortIsStable(t, lt, i, j);
    SortIsStable(s, lt, i, j);
    SortPermutes(t, lt);
    PermutationStaysDistinct(t, Sort(t, lt));
    OneOrder(Sort(t, lt), t[i], t[j]);
  }

  /** Texts tell the listings of one set of files apart without any assumption on the hash of the contents. */
  lemma TextTellsListings(a: seq<File>, b: seq<File>, less: Collation, hb: Bytes -> string)
    requires IsTree(a) && Refilled(a, b) && HexLike(hb) && CleanPaths(a)
    ensures DigestText(a, less, hb) == DigestText(b, less, hb) <==> Sort(a, ByPath(less)) == Sort(b, ByPath(less))
  {
    if DigestText(a, less, hb) == DigestText(b, less, hb) {
      var x, y := Sort(a, ByPath(less)), Sort(b, ByPath(less));
      RefilledIsClean(a, b);
      LinesAreClean(a, less, hb);
      LinesAreClean(b, less, hb);
      JoinInjective(Lines(x, hb), Lines(y, hb));
      assert |x| == |Lines(x, hb)| && |y| == |Lines(y, hb)|;
      forall i | 0 <= i < |x| ensures x[i] == y[i] {
        assert Lines(x, hb)[i] == Lines(y, hb)[i];
        SameLine(x[i], y[i], hb);
        SortedMembers(a, ByPath(less));
        SortedMembers(b, ByPath(less));
        ContentsAre(a);
        ContentsAre(b);
        assert x[i] in a && y[i] in b;
      }
    }
  }

  lemma RefilledIsClean(a: seq<File>, b: seq<File>)
    requires IsTree(a) && Refilled(a, b) && CleanPaths(a)
    ensures CleanPaths(b)
  {
    ContentsAre(a);
    ContentsAre(b);
    forall i | 0 <= i < |b| ensures Lacks(b[i].path, '\n') {
      assert b[i] in b;
      assert b[i] in a;
      var k :| 0 <= k < |a| && a[k] == b[i];
    }
  }

  /** The texts digested for the orders in which the tree `a` can be filled do not collide. */
  ghost predicate TextsApart(a: seq<File>, less: Collation, hb: Bytes -> string, h: string -> string) {
    forall b :: Refilled(a, b) && TreeDigest(b, less, hb, h) == TreeDigest(a, less, hb, h) ==>
      DigestText(b, less, hb) == DigestText(a, less, hb)
  }

  ghost predicate OrderDoesNotShow(a: seq<File>, less: Collation, hb: Bytes -> string, h: string -> string) {
    forall b :: Refilled(a, b) ==> TreeDigest(b, less, hb, h) == TreeDigest(a, less, hb, h)
  }

  /** All trees equal to `a` have its digest exactly when the collation tells any two paths of `a` apart. */
  lemma EqualTreesShareDigestIff(a: seq<File>, less: Collation, hb: Bytes -> string, h: string -> string)
    requires IsTree(a) && CleanPaths(a) && StrictWeak(less) && HexLike(hb) && TextsApart(a, less, hb, h)
    ensures OrderDoesNotShow(a, less, hb, h) <==> Orders(less, a)
  {
    if Orders(less, a) {
      forall b | Refilled(a, b) ensures TreeDigest(b, less, hb, h) == TreeDigest(a, less, hb, h) {
        SameFiles(a, b);
        SameListing(a, b, less);
      }
    }
    if OrderDoesNotShow(a, less, hb, h) {
      forall i, j | 0 <= i < j < |a| ensures less(a[i].path, a[j].path) || less(a[j].path, a[i].path) {
        var b := Swapped(a, i, j);
        SwappedIsRefilled(a, i, j);
        assert Refilled(a, b);
        TextTellsListings(a, b, less, hb);
        if !less(a[i].path, a[j].path) && !less(a[j].path, a[i].path) { TieShows(a, less, i, j); }
      }
    }
  }

  /** The letter e with an acute accent, as one character and as two: a collation may hold them equal. The
      same two files, entered in either order, then have different digests although no difference is found. */
  lemma TiedPathsHaveTwoDigests(less: Collation, hb: Bytes -> string, h: string -> string, x: Bytes, y: Bytes)
    requires !less("\U{E9}", "e\U{301}") && !less("e\U{301}", "\U{E9}") && HexLike(hb)
    requires var a := [File("\U{E9}", x), File("e\U{301}", y)]; TextsApart(a, less, hb, h)
    ensures var a, b := [File("\U{E9}", x), File("e\U{301}", y)], [File("e\U{301}", y), File("\U{E9}", x)];
            IsTree(a) && IsTree(b) && Compare(a, b) == [] && TreeDigest(a, less, hb, h) != TreeDigest(b, less, hb, h)
  {
    var a, b := [File("\U{E9}", x), File("e\U{301}", y)], [File("e\U{301}", y), File("\U{E9}", x)];
    assert Swapped(a, 0, 1) == b;
    assert a[0].path[0] != a[1].path[0];
    SwappedIsRefilled(a, 0, 1);
    NoDifferenceIffEqual(a, b);
    TextTellsListings(a, b, less, hb);
    TieShows(a, less, 0, 1);
  }

  // ---- the verdict ----

  /** How many differences are reported: those of the trees, and one if the build hashes differ. */
  function DifferenceCount(a: seq<File>, b: seq<File>, buildHash1: string, buildHash2: string): nat {
    |Compare(a, b)| + (if buildHash1 != buildHash2 then 1 else 0)
  }

  /** The verdict of `verifyAgainstTree`. */
  predicate Identical(a: seq<File>, b: seq<File>, buildHash1: string, buildHash2: string) {
    buildHash1 == buildHash2 && DifferenceCount(a, b, buildHash1, buildHash2) == 0
  }

  /** Two runs are reported identical exactly when their trees and build hashes are. */
  lemma IdenticalIff(a: seq<File>, b: seq<File>, buildHash1: string, buildHash2: string)
    requires IsTree(a) && IsTree(b)
    ensures Identical(a, b, buildHash1, buildHash2) <==> Contents(a) == Contents(b) && buildHash1 == buildHash2
  {
    NoDifferenceIffEqual(a, b);
  }
}
