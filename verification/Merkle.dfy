// The Merkle root over an event log: sorted pairs, and a last node without a partner paired with
// itself. SHA-256 is a parameter `h` with fixed-width results; where a theorem needs it, `h` is
// collision-free on the finitely many texts hashed in the computations compared.

module Merkle {
  import opened Text
  import opened Sorting

  const WIDTH: nat := 64

  ghost predicate FixedWidth(h: string -> string) {
    forall s :: |h(s)| == WIDTH
  }

  ghost predicate Digests(xs: seq<string>) {
    forall i :: 0 <= i < |xs| ==> |xs[i]| == WIDTH
  }

  ghost predicate CollisionFree(h: string -> string, texts: set<string>) {
    forall x, y :: x in texts && y in texts && h(x) == h(y) ==> x == y
  }

  /** `[left, right].sort().join('')` */
  function PairText(left: string, right: string): string {
    Join(Sort([left, right], TextLess), "")
  }

  function HashConcat(h: string -> string, left: string, right: string): string {
    h(PairText(left, right))
  }

  /** The texts hashed on the way to the next level. */
  function PairTexts(xs: seq<string>): (r: seq<string>)
    ensures |r| == (|xs| + 1) / 2
  {
    if xs == [] then []
    else if |xs| == 1 then [PairText(xs[0], xs[0])]
    else [PairText(xs[0], xs[1])] + PairTexts(xs[2..])
  }

  function HashAll(h: string -> string, texts: seq<string>): (r: seq<string>)
    ensures |r| == |texts|
    ensures forall i :: 0 <= i < |texts| ==> r[i] == h(texts[i])
  {
    if texts == [] then [] else [h(texts[0])] + HashAll(h, texts[1..])
  }

  function NextLevel(h: string -> string, xs: seq<string>): seq<string> {
    HashAll(h, PairTexts(xs))
  }

  function Root(h: string -> string, xs: seq<string>): string
    requires xs != []
    decreases |xs|
  {
    if |xs| == 1 then xs[0] else Root(h, NextLevel(h, xs))
  }

  ghost function TextSet(xs: seq<string>): set<string> {
    set x | x in xs
  }

  /** All texts hashed between the leaves and the root. */
  ghost function Hashed(h: string -> string, xs: seq<string>): set<string>
    requires xs != []
    decreases |xs|
  {
    if |xs| == 1 then {} else TextSet(PairTexts(xs)) + Hashed(h, NextLevel(h, xs))
  }

  lemma {:induction false} PairTextsAt(xs: seq<string>, k: nat)
    requires 2 * k < |xs|
    ensures PairTexts(xs)[k] == PairText(xs[2 * k], if 2 * k + 1 < |xs| then xs[2 * k + 1] else xs[2 * k])
  {
    if |xs| > 1 && k > 0 { PairTextsAt(xs[2..], k - 1); }
  }

  // ---- the algorithm ----

  lemma LevelAt(h: string -> string, xs: seq<string>, k: nat)
    requires 2 * k < |xs|
    ensures |NextLevel(h, xs)| == (|xs| + 1) / 2
    ensures NextLevel(h, xs)[k] == HashConcat(h, xs[2 * k], if 2 * k + 1 < |xs| then xs[2 * k + 1] else xs[2 * k])
  {
    PairTextsAt(xs, k);
  }

  lemma LevelLength(h: string -> string, xs: seq<string>)
    ensures |NextLevel(h, xs)| == (|xs| + 1) / 2
  {
    if xs != [] { LevelAt(h, xs, 0); }
  }

  lemma OneMorePair(h: string -> string, xs: seq<string>, i: nat, k: nat)
    requires i == 2 * k && i < |xs| && k <= |NextLevel(h, xs)|
    ensures k < |NextLevel(h, xs)|
    ensures NextLevel(h, xs)[..k + 1]
         == NextLevel(h, xs)[..k] + [HashConcat(h, xs[i], if i + 1 < |xs| then xs[i + 1] else xs[i])]
  {
    LevelAt(h, xs, k);
  }

  /** One level: `next` is filled pair by pair. The recursion ends because the list is not empty. */
  method BuildMerkleTree(h: string -> string, leaves: seq<string>) returns (root: string)
    requires leaves != []
    ensures root == Root(h, leaves)
    decreases |leaves|
  {
    if |leaves| == 1 { return leaves[0]; }
    var next := BuildLevel(h, leaves);
    root := BuildMerkleTree(h, next);
  }

  method BuildLevel(h: string -> string, leaves: seq<string>) returns (next: seq<string>)
    ensures next == NextLevel(h, leaves)
  {
    next := [];
    ghost var level := NextLevel(h, leaves);
    var i := 0;
    while i < |leaves|
      invariant i == 2 * |next| && |next| <= |level| && next == level[..|next|]
    {
      var left := leaves[i];
      var right := if i + 1 < |leaves| then leaves[i + 1] else left;
      OneMorePair(h, leaves, i, |next|);
      next := next + [HashConcat(h, left, right)];
      i := i + 2;
    }
    LevelLength(h, leaves);
    assert level[..|level|] == level;
  }

  datatype MerkleRootResult = MerkleRootResult(eventCount: nat, rootHash: string)

  /** Root over the serialised events; the empty log has a root of its own. */
  function Compute(h: string -> string, events: seq<string>): MerkleRootResult {
    if events == [] then MerkleRootResult(0, HashConcat(h, h(""), h("")))
    else MerkleRootResult(|events|, Root(h, HashAll(h, events)))
  }

  method ComputeRoot(h: string -> string, events: seq<string>) returns (r: MerkleRootResult)
    ensures r == Compute(h, events)
  {
    if |events| == 0 {
      return MerkleRootResult(0, HashConcat(h, h(""), h("")));
    }
    var root := BuildMerkleTree(h, HashAll(h, events));
    return MerkleRootResult(|events|, root);
  }

  // ---- pairs ----

  lemma PairTextIs(l: string, r: string)
    ensures PairText(l, r) == if TextLess(r, l) then r + l else l + r
  {
    SortPair(l, r, TextLess);
    JoinPair(l, r);
    JoinPair(r, l);
  }

  lemma JoinPair(a: string, b: string)
    ensures Join([a, b], "") == a + b
  {
    assert [a, b][1..] == [b];
    assert Join([b], "") == b;
    assert "" + b == b;
  }

  /** The text of a pair determines the pair, up to order, and nothing else does. */
  lemma PairBinding(a: string, b: string, c: string, d: string)
    requires |a| == |b| == |c| == |d|
    ensures PairText(a, b) == PairText(c, d) <==> multiset{a, b} == multiset{c, d}
  {
    PairTextIs(a, b);
    PairTextIs(c, d);
    if PairText(a, b) == PairText(c, d) {
      var p := PairText(a, b);
      assert p[..|a|] == if TextLess(b, a) then b else a;
      assert p[|a|..] == if TextLess(b, a) then a else b;
      assert p[..|a|] == if TextLess(d, c) then d else c;
      assert p[|a|..] == if TextLess(d, c) then c else d;
    }
    if multiset{a, b} == multiset{c, d} {
      assert a in multiset{c, d};
      if a == c {
        assert multiset{a, b} - multiset{a} == multiset{b};
        assert multiset{c, d} - multiset{c} == multiset{d};
        assert b in multiset{d};
      } else {
        assert a == d;
        assert multiset{a, b} - multiset{a} == multiset{b};
        assert multiset{c, d} - multiset{d} == multiset{c};
        assert b in multiset{c};
        if a != b {
          if TextLess(a, b) { TextLessAsymmetric(a, b); } else { TextLessTotal(a, b); }
        }
      }
    }
  }

  lemma TextLessAsymmetric(a: string, b: string)
    requires TextLess(a, b)
    ensures !TextLess(b, a)
  {
    if TextLess(b, a) {
      TextLessTransitive(a, b, a);
      TextLessIrreflexive(a);
    }
  }

  lemma CollisionFreeSubset(h: string -> string, big: set<string>, small: set<string>)
    requires CollisionFree(h, big) && small <= big
    ensures CollisionFree(h, small)
  {
  }

  ghost predicate Comparable(h: string -> string, xs: seq<string>, ys: seq<string>) {
    && FixedWidth(h) && Digests(xs) && Digests(ys)
    && |xs| == |ys| > 0 && CollisionFree(h, Hashed(h, xs) + Hashed(h, ys))
  }

  lemma ComparableNext(h: string -> string, xs: seq<string>, ys: seq<string>)
    requires Comparable(h, xs, ys) && |xs| > 1
    ensures Comparable(h, NextLevel(h, xs), NextLevel(h, ys))
    ensures CollisionFree(h, TextSet(PairTexts(xs)) + TextSet(PairTexts(ys)))
  {
    var all := Hashed(h, xs) + Hashed(h, ys);
    CollisionFreeSubset(h, all, Hashed(h, NextLevel(h, xs)) + Hashed(h, NextLevel(h, ys)));
    CollisionFreeSubset(h, all, TextSet(PairTexts(xs)) + TextSet(PairTexts(ys)));
  }

  // ---- the root binds the set of leaves ----

  /** The two leaves under a node. */
  ghost function Under(xs: seq<string>, k: nat): multiset<string>
    requires 2 * k < |xs|
  {
    multiset{xs[2 * k], if 2 * k + 1 < |xs| then xs[2 * k + 1] else xs[2 * k]}
  }

  /** Equal nodes stand over equal leaves. */
  lemma NodeBinding(h: string -> string, xs: seq<string>, ys: seq<string>, i: nat, j: nat)
    requires Digests(xs) && Digests(ys) && 2 * i < |xs| && 2 * j < |ys|
    requires CollisionFree(h, TextSet(PairTexts(xs)) + TextSet(PairTexts(ys)))
    ensures NextLevel(h, xs)[i] == NextLevel(h, ys)[j] <==> Under(xs, i) == Under(ys, j)
  {
    PairTextsAt(xs, i);
    PairTextsAt(ys, j);
    assert PairTexts(xs)[i] in TextSet(PairTexts(xs)) && PairTexts(ys)[j] in TextSet(PairTexts(ys));
    PairBinding(xs[2 * i], if 2 * i + 1 < |xs| then xs[2 * i + 1] else xs[2 * i],
                ys[2 * j], if 2 * j + 1 < |ys| then ys[2 * j + 1] else ys[2 * j]);
  }

  lemma LeavesUnderNodes(h: string -> string, xs: seq<string>, ys: seq<string>, x: string)
    requires Digests(xs) && Digests(ys) && x in xs
    requires CollisionFree(h, TextSet(PairTexts(xs)) + TextSet(PairTexts(ys)))
    requires forall n :: n in NextLevel(h, xs) ==> n in NextLevel(h, ys)
    ensures x in ys
  {
    var k :| 0 <= k < |xs| && xs[k] == x;
    var i := k / 2;
    UnderHas(xs, k);
    LevelAt(h, xs, i);
    var ns := NextLevel(h, ys);
    assert NextLevel(h, xs)[i] in ns;
    var j :| 0 <= j < |ns| && ns[j] == NextLevel(h, xs)[i];
    if ys != [] { LevelAt(h, ys, 0); }
    NodeBinding(h, xs, ys, i, j);
    UnderIsIn(ys, j, x);
  }

  lemma UnderHas(xs: seq<string>, k: nat)
    requires k < |xs|
    ensures xs[k] in Under(xs, k / 2)
  {
  }

  lemma UnderIsIn(ys: seq<string>, j: nat, y: string)
    requires 2 * j < |ys| && y in Under(ys, j)
    ensures y in ys
  {
  }

  /** Logs of equal length with equal roots have the same set of leaves. */
  lemma {:induction false} RootBindsSet(h: string -> string, xs: seq<string>, ys: seq<string>)
    requires Comparable(h, xs, ys) && Root(h, xs) == Root(h, ys)
    ensures TextSet(xs) == TextSet(ys)
    decreases |xs|
  {
    if |xs| > 1 {
      var nx, ny := NextLevel(h, xs), NextLevel(h, ys);
      ComparableNext(h, xs, ys);
      RootBindsSet(h, nx, ny);
      forall n ensures n in nx <==> n in ny { assert n in TextSet(nx) <==> n in TextSet(ny); }
      forall x | x in xs ensures x in ys { LeavesUnderNodes(h, xs, ys, x); }
      assert TextSet(PairTexts(xs)) + TextSet(PairTexts(ys)) == TextSet(PairTexts(ys)) + TextSet(PairTexts(xs));
      forall y | y in ys ensures y in xs { LeavesUnderNodes(h, ys, xs, y); }
    }
  }

  /** Changing exactly one leaf changes the root. */
  lemma {:induction false} OneLeafChangesRoot(h: string -> string, xs: seq<string>, ys: seq<string>, i: nat)
    requires Comparable(h, xs, ys) && i < |xs| && xs[i] != ys[i]
    requires forall k :: 0 <= k < |xs| && k != i ==> xs[k] == ys[k]
    ensures Root(h, xs) != Root(h, ys)
    decreases |xs|
  {
    if |xs| > 1 {
      var nx, ny := NextLevel(h, xs), NextLevel(h, ys);
      ComparableNext(h, xs, ys);
      forall k | 0 <= k < |nx| && k != i / 2 ensures nx[k] == ny[k] {
        PairTextsAt(xs, k);
        PairTextsAt(ys, k);
      }
      NodeBinding(h, xs, ys, i / 2, i / 2);
      OnePairDiffers(xs, ys, i);
      OneLeafChangesRoot(h, nx, ny, i / 2);
    }
  }

  lemma OtherOfPair(x: string, y: string, s: string)
    requires x != y
    ensures multiset{x, s} != multiset{y, s} && multiset{s, x} != multiset{s, y} && multiset{x, x} != multiset{y, y}
  {
    assert multiset{x, s}[x] == multiset{y, s}[x] + 1;
    assert multiset{s, x} == multiset{x, s} && multiset{s, y} == multiset{y, s};
    assert multiset{x, x}[x] == 2 && multiset{y, y}[x] == 0;
  }

  lemma OnePairDiffers(xs: seq<string>, ys: seq<string>, i: nat)
    requires |xs| == |ys| && i < |xs| && xs[i] != ys[i]
    requires forall k :: 0 <= k < |xs| && k != i ==> xs[k] == ys[k]
    ensures Under(xs, i / 2) != Under(ys, i / 2)
  {
    OtherOfPair(xs[i], ys[i], if i % 2 == 1 then xs[i - 1] else if i + 1 < |xs| then xs[i + 1] else "");
  }

  /** A log of odd length has the root of the log with its last event repeated: counts must be compared too. */
  lemma LastLeafRepeated(h: string -> string, xs: seq<string>)
    requires |xs| % 2 == 1 && |xs| > 1
    ensures Root(h, xs) == Root(h, xs + [xs[|xs| - 1]])
  {
    SamePairTexts(xs);
  }

  lemma {:induction false} SamePairTexts(xs: seq<string>)
    requires |xs| % 2 == 1
    ensures PairTexts(xs) == PairTexts(xs + [xs[|xs| - 1]])
  {
    var ys := xs + [xs[|xs| - 1]];
    if |xs| > 1 {
      assert ys[2..] == xs[2..] + [xs[2..][|xs| - 3]];
      SamePairTexts(xs[2..]);
    }
  }

  /** On whole logs: equal counts and equal roots mean the same set of serialised events. */
  lemma ComputeBindsEvents(h: string -> string, a: seq<string>, b: seq<string>)
    requires FixedWidth(h) && Compute(h, a) == Compute(h, b)
    requires a != [] && b != [] ==>
      CollisionFree(h, TextSet(a) + TextSet(b))
      && CollisionFree(h, Hashed(h, HashAll(h, a)) + Hashed(h, HashAll(h, b)))
    ensures TextSet(a) == TextSet(b)
  {
    assert |a| == |b|;
    if a != [] {
      RootBindsLeaves(h, a, b);
      SameEvents(h, a, b);
      assert TextSet(b) + TextSet(a) == TextSet(a) + TextSet(b);
      SameEvents(h, b, a);
    }
  }

  lemma RootBindsLeaves(h: string -> string, a: seq<string>, b: seq<string>)
    requires FixedWidth(h) && |a| == |b| > 0 && Root(h, HashAll(h, a)) == Root(h, HashAll(h, b))
    requires CollisionFree(h, Hashed(h, HashAll(h, a)) + Hashed(h, HashAll(h, b)))
    ensures TextSet(HashAll(h, a)) == TextSet(HashAll(h, b))
  {
    LeavesAreDigests(h, a);
    LeavesAreDigests(h, b);
    var xs, ys := HashAll(h, a), HashAll(h, b);
    RootBindsSet(h, xs, ys);
  }

  lemma LeavesAreDigests(h: string -> string, events: seq<string>)
    requires FixedWidth(h)
    ensures Digests(HashAll(h, events))
  {
  }

  lemma SameEvents(h: string -> string, a: seq<string>, b: seq<string>)
    requires TextSet(HashAll(h, a)) == TextSet(HashAll(h, b))
    requires CollisionFree(h, TextSet(a) + TextSet(b))
    ensures TextSet(a) <= TextSet(b)
  {
    forall x | x in a ensures x in b {
      var i :| 0 <= i < |a| && a[i] == x;
      assert HashAll(h, a)[i] in TextSet(HashAll(h, b));
      var j :| 0 <= j < |b| && HashAll(h, b)[j] == h(x);
      assert b[j] in TextSet(b);
    }
  }
}

// When does the root bind the leaves with their multiplicities? Exactly for powers of two.

module MerkleMultiplicity {
  import opened Merkle
  import Text

  predicate PowerOfTwo(n: nat) {
    n == 1 || (n > 1 && n % 2 == 0 && PowerOfTwo(n / 2))
  }

  // ---- powers of two ----

  function WithoutPair(ys: seq<string>, j: nat): (r: seq<string>)
    requires |ys| % 2 == 0 && 2 * j < |ys|
    ensures |r| == |ys| - 2
    ensures forall k :: 0 <= k < |r| ==> r[k] == if k < 2 * j then ys[k] else ys[k + 2]
  {
    ys[..2 * j] + ys[2 * j + 2..]
  }

  lemma PairTextsEven(xs: seq<string>, p: nat, k: nat)
    requires |xs| == 2 * p && k < p
    ensures |PairTexts(xs)| == p && PairTexts(xs)[k] == PairText(xs[2 * k], xs[2 * k + 1])
  {
    PairTextsAt(xs, k);
  }

  lemma DropPairAt(ys: seq<string>, p: nat, j: nat, k: nat)
    requires |ys| == 2 * p && j < p && k < p - 1
    ensures |PairTexts(ys)| == p && |PairTexts(WithoutPair(ys, j))| == p - 1
    ensures PairTexts(WithoutPair(ys, j))[k] == PairTexts(ys)[if k < j then k else k + 1]
  {
    PairTextsEven(WithoutPair(ys, j), p - 1, k);
    PairTextsEven(ys, p, if k < j then k else k + 1);
  }

  lemma DropPair(ys: seq<string>, j: nat)
    requires |ys| % 2 == 0 && 2 * j < |ys|
    ensures PairTexts(WithoutPair(ys, j)) == PairTexts(ys)[..j] + PairTexts(ys)[j + 1..]
  {
    var p := |ys| / 2;
    var ps := PairTexts(ys)[..j] + PairTexts(ys)[j + 1..];
    forall k | 0 <= k < |ps| ensures PairTexts(WithoutPair(ys, j))[k] == ps[k] { DropPairAt(ys, p, j, k); }
  }

  lemma DropPairLeaves(ys: seq<string>, j: nat)
    requires |ys| % 2 == 0 && 2 * j < |ys|
    ensures multiset(ys) == multiset(WithoutPair(ys, j)) + Under(ys, j)
  {
    assert ys == ys[..2 * j] + ([ys[2 * j], ys[2 * j + 1]] + ys[2 * j + 2..]);
  }

  lemma DropNode(h: string -> string, ys: seq<string>, j: nat)
    requires |ys| % 2 == 0 && 2 * j < |ys|
    ensures NextLevel(h, WithoutPair(ys, j)) == NextLevel(h, ys)[..j] + NextLevel(h, ys)[j + 1..]
  {
    DropPair(ys, j);
  }

  lemma RemoveAt(ns: seq<string>, j: nat)
    requires j < |ns|
    ensures multiset(ns) == multiset(ns[..j] + ns[j + 1..]) + multiset{ns[j]}
  {
    assert ns == ns[..j] + ([ns[j]] + ns[j + 1..]);
  }

  lemma DropPairNodes(h: string -> string, ys: seq<string>, j: nat)
    requires |ys| % 2 == 0 && 2 * j < |ys|
    ensures multiset(NextLevel(h, ys)) == multiset(NextLevel(h, WithoutPair(ys, j))) + multiset{NextLevel(h, ys)[j]}
  {
    DropNode(h, ys, j);
    RemoveAt(NextLevel(h, ys), j);
  }

  lemma DropPairTexts(ys: seq<string>, j: nat)
    requires |ys| % 2 == 0 && 2 * j < |ys|
    ensures TextSet(PairTexts(WithoutPair(ys, j))) <= TextSet(PairTexts(ys))
  {
    DropPair(ys, j);
  }

  lemma NodeWithSameLeaves(h: string -> string, xs: seq<string>, ys: seq<string>) returns (j: nat)
    requires |xs| == |ys| > 0 && Digests(xs) && Digests(ys)
    requires CollisionFree(h, TextSet(PairTexts(xs)) + TextSet(PairTexts(ys)))
    requires NextLevel(h, xs)[0] in multiset(NextLevel(h, ys))
    ensures 2 * j < |ys| && NextLevel(h, xs)[0] == NextLevel(h, ys)[j] && Under(xs, 0) == Under(ys, j)
  {
    j :| 0 <= j < |NextLevel(h, ys)| && NextLevel(h, ys)[j] == NextLevel(h, xs)[0];
    NodeBinding(h, xs, ys, 0, j);
  }

  lemma RemoveOne(a: multiset<string>, b: multiset<string>, ar: multiset<string>, br: multiset<string>, node: string)
    requires a == b && a == ar + multiset{node} && b == br + multiset{node}
    ensures ar == br
  {
    assert ar == a - multiset{node} && br == b - multiset{node};
  }

  /** Removing a pair under equal nodes from both sides keeps what is assumed. */
  lemma DropBoth(h: string -> string, xs: seq<string>, ys: seq<string>, j: nat)
    requires |xs| == |ys| > 0 && |xs| % 2 == 0 && 2 * j < |ys|
    requires multiset(NextLevel(h, xs)) == multiset(NextLevel(h, ys)) && NextLevel(h, xs)[0] == NextLevel(h, ys)[j]
    ensures multiset(NextLevel(h, WithoutPair(xs, 0))) == multiset(NextLevel(h, WithoutPair(ys, j)))
  {
    DropPairNodes(h, xs, 0);
    DropPairNodes(h, ys, j);
    RemoveOne(multiset(NextLevel(h, xs)), multiset(NextLevel(h, ys)), multiset(NextLevel(h, WithoutPair(xs, 0))),
              multiset(NextLevel(h, WithoutPair(ys, j))), NextLevel(h, xs)[0]);
  }

  lemma DropBothTexts(h: string -> string, xs: seq<string>, ys: seq<string>, j: nat)
    requires |xs| == |ys| > 0 && |xs| % 2 == 0 && 2 * j < |ys|
    requires CollisionFree(h, TextSet(PairTexts(xs)) + TextSet(PairTexts(ys)))
    ensures CollisionFree(h, TextSet(PairTexts(WithoutPair(xs, 0))) + TextSet(PairTexts(WithoutPair(ys, j))))
  {
    DropPairTexts(xs, 0);
    DropPairTexts(ys, j);
  }

  lemma DropPairDigests(ys: seq<string>, j: nat)
    requires |ys| % 2 == 0 && 2 * j < |ys| && Digests(ys)
    ensures Digests(WithoutPair(ys, j)) && |WithoutPair(ys, j)| == |ys| - 2 && |WithoutPair(ys, j)| % 2 == 0
  {
  }

  /** With every node over two leaves of its own, equal nodes with multiplicities mean equal leaves
      with multiplicities. */
  lemma {:induction false} NodesBindLeaves(h: string -> string, xs: seq<string>, ys: seq<string>)
    requires |xs| == |ys| && |xs| % 2 == 0 && Digests(xs) && Digests(ys)
    requires CollisionFree(h, TextSet(PairTexts(xs)) + TextSet(PairTexts(ys)))
    requires multiset(NextLevel(h, xs)) == multiset(NextLevel(h, ys))
    ensures multiset(xs) == multiset(ys)
    decreases |xs|
  {
    if xs != [] {
      assert NextLevel(h, xs)[0] in multiset(NextLevel(h, xs));
      var j := NodeWithSameLeaves(h, xs, ys);
      DropBoth(h, xs, ys, j);
      DropBothTexts(h, xs, ys, j);
      DropPairDigests(xs, 0);
      DropPairDigests(ys, j);
      NodesBindLeaves(h, WithoutPair(xs, 0), WithoutPair(ys, j));
      DropPairLeaves(xs, 0);
      DropPairLeaves(ys, j);
    }
  }

  /** For lengths that are powers of two, equal roots mean the same leaves with the same multiplicities. */
  lemma {:induction false} PowerOfTwoBindsMultiset(h: string -> string, xs: seq<string>, ys: seq<string>)
    requires Comparable(h, xs, ys) && Root(h, xs) == Root(h, ys) && PowerOfTwo(|xs|)
    ensures multiset(xs) == multiset(ys)
    decreases |xs|
  {
    if |xs| > 1 {
      var nx, ny := NextLevel(h, xs), NextLevel(h, ys);
      ComparableNext(h, xs, ys);
      assert |nx| == |xs| / 2 && PowerOfTwo(|nx|);
      assert Root(h, nx) == Root(h, ny);
      PowerOfTwoBindsMultiset(h, nx, ny);
      NodesBindLeaves(h, xs, ys);
    }
  }

  // ---- all other lengths ----

  /** A log over two leaves, written as a pattern. */
  function Paint(u: seq<bool>, a: string, c: string): (r: seq<string>)
    ensures |r| == |u| && forall i :: 0 <= i < |u| ==> r[i] == if u[i] then c else a
  {
    if u == [] then [] else [if u[0] then c else a] + Paint(u[1..], a, c)
  }

  function Double(u: seq<bool>): (r: seq<bool>)
    ensures |r| == 2 * |u|
    ensures forall i :: 0 <= i < |r| ==> r[i] == u[i / 2]
  {
    if u == [] then [] else [u[0], u[0]] + Double(u[1..])
  }

  function Count(u: seq<bool>): nat {
    if u == [] then 0 else (if u[0] then 1 else 0) + Count(u[1..])
  }

  function Falses(n: nat): (r: seq<bool>)
    ensures |r| == n && forall i :: 0 <= i < n ==> !r[i]
  {
    if n == 0 then [] else [false] + Falses(n - 1)
  }

  /** Two patterns of length `n` that every hash sends to the same root. */
  function Twins(n: nat): (r: (seq<bool>, seq<bool>))
    requires n > 0 && !PowerOfTwo(n)
    ensures |r.0| == |r.1| == n
    decreases n
  {
    if n % 2 == 0 then
      var t := Twins(n / 2);
      (Double(t.0), Double(t.1))
    else if ((n + 1) / 2) % 2 == 0 then
      (Ends(n, true), Ends(n, false))
    else
      var t := Twins((n + 1) / 2);
      (Double(t.0)[..n], Double(t.1)[..n])
  }

  /** A pattern whose pairs are equal goes up as the same pattern, over the pair nodes. */
  lemma PaintUp(h: string -> string, u: seq<bool>, n: nat, a: string, c: string)
    requires n == 2 * |u| || n == 2 * |u| - 1
    ensures NextLevel(h, Paint(Double(u)[..n], a, c)) == Paint(u, HashConcat(h, a, a), HashConcat(h, c, c))
  {
    var xs := Paint(Double(u)[..n], a, c);
    var up := Paint(u, HashConcat(h, a, a), HashConcat(h, c, c));
    forall k | 0 <= k < |u| ensures NextLevel(h, xs)[k] == up[k] { PaintUpAt(h, u, n, a, c, k); }
  }

  lemma LevelOver(h: string -> string, xs: seq<string>, k: nat, x: string)
    requires 2 * k < |xs| && xs[2 * k] == x && (2 * k + 1 < |xs| ==> xs[2 * k + 1] == x)
    ensures |NextLevel(h, xs)| == (|xs| + 1) / 2 && NextLevel(h, xs)[k] == HashConcat(h, x, x)
  {
    LevelAt(h, xs, k);
  }

  lemma PaintUpAt(h: string -> string, u: seq<bool>, n: nat, a: string, c: string, k: nat)
    requires (n == 2 * |u| || n == 2 * |u| - 1) && k < |u|
    ensures var xs := Paint(Double(u)[..n], a, c);
            |NextLevel(h, xs)| == |u|
            && NextLevel(h, xs)[k] == if u[k] then HashConcat(h, c, c) else HashConcat(h, a, a)
  {
    DoubleAt(u, n, k);
    LevelOver(h, Paint(Double(u)[..n], a, c), k, if u[k] then c else a);
  }

  lemma DoubleAt(u: seq<bool>, n: nat, k: nat)
    requires (n == 2 * |u| || n == 2 * |u| - 1) && k < |u|
    ensures Double(u)[..n][2 * k] == u[k] && (2 * k + 1 < n ==> Double(u)[..n][2 * k + 1] == u[k])
  {
    var d := Double(u);
    assert d[2 * k] == u[(2 * k) / 2] && d[2 * k + 1] == u[(2 * k + 1) / 2];
    assert (2 * k) / 2 == k && (2 * k + 1) / 2 == k;
    assert d[..n][2 * k] == d[2 * k];
    if 2 * k + 1 < n { assert d[..n][2 * k + 1] == d[2 * k + 1]; }
  }

  /** Two levels whose last two nodes are exchanged, and nothing else, have the same next level. */
  lemma ExchangedPair(h: string -> string, nx: seq<string>, ny: seq<string>)
    requires |nx| == |ny| >= 2 && |nx| % 2 == 0
    requires var m := |nx|; nx[m - 2] == ny[m - 1] && nx[m - 1] == ny[m - 2] && nx[..m - 2] == ny[..m - 2]
    ensures NextLevel(h, nx) == NextLevel(h, ny)
  {
    var m := |nx|;
    PairSymmetric(nx[m - 2], nx[m - 1]);
    forall k | 0 <= k < m / 2 ensures NextLevel(h, nx)[k] == NextLevel(h, ny)[k] {
      LevelAt(h, nx, k);
      LevelAt(h, ny, k);
      if k < m / 2 - 1 {
        assert nx[..m - 2][2 * k] == ny[..m - 2][2 * k] && nx[..m - 2][2 * k + 1] == ny[..m - 2][2 * k + 1];
      }
    }
  }

  function Ends(n: nat, last: bool): seq<bool>
    requires n >= 3
  {
    Falses(n - 3) + [!last, !last, last]
  }

  lemma EndsUp(h: string -> string, n: nat, last: bool, a: string, c: string, k: nat)
    requires n % 2 == 1 && n >= 3 && k < (n + 1) / 2
    ensures var ns := NextLevel(h, Paint(Ends(n, last), a, c));
            var v := if k < (n - 3) / 2 then false else if k == (n - 3) / 2 then !last else last;
            |ns| == (n + 1) / 2 && ns[k] == if v then HashConcat(h, c, c) else HashConcat(h, a, a)
  {
    var v := if k < (n - 3) / 2 then false else if k == (n - 3) / 2 then !last else last;
    EndsAt(n, last, k, v);
    LevelOver(h, Paint(Ends(n, last), a, c), k, if v then c else a);
  }

  lemma EndsAt(n: nat, last: bool, k: nat, v: bool)
    requires n % 2 == 1 && n >= 3 && k < (n + 1) / 2
    requires v == if k < (n - 3) / 2 then false else if k == (n - 3) / 2 then !last else last
    ensures Ends(n, last)[2 * k] == v && (2 * k + 1 < n ==> Ends(n, last)[2 * k + 1] == v)
  {
  }

  /** Two levels apart the two lists differ in nothing but the order of the last pair. */
  lemma EndsAgree(h: string -> string, n: nat, a: string, c: string, nx: seq<string>, ny: seq<string>)
    requires n % 2 == 1 && n >= 3
    requires nx == NextLevel(h, Paint(Ends(n, true), a, c)) && ny == NextLevel(h, Paint(Ends(n, false), a, c))
    ensures var m := (n + 1) / 2;
      && |nx| == |ny| == m && nx[m - 2] == ny[m - 1] && nx[m - 1] == ny[m - 2]
      && forall k :: 0 <= k < m - 2 ==> nx[k] == ny[k]
  {
    var m := (n + 1) / 2;
    EndsUp(h, n, true, a, c, m - 2);
    EndsUp(h, n, false, a, c, m - 2);
    EndsUp(h, n, true, a, c, m - 1);
    EndsUp(h, n, false, a, c, m - 1);
    forall k | 0 <= k < m - 2 ensures nx[k] == ny[k] {
      EndsUp(h, n, true, a, c, k);
      EndsUp(h, n, false, a, c, k);
    }
  }

  lemma SwappedEnds(h: string -> string, n: nat, a: string, c: string)
    requires n % 2 == 1 && n > 1 && ((n + 1) / 2) % 2 == 0
    ensures NextLevel(h, NextLevel(h, Paint(Ends(n, true), a, c)))
         == NextLevel(h, NextLevel(h, Paint(Ends(n, false), a, c)))
  {
    var nx, ny := NextLevel(h, Paint(Ends(n, true), a, c)), NextLevel(h, Paint(Ends(n, false), a, c));
    EndsAgree(h, n, a, c, nx, ny);
    ExchangedPair(h, nx, ny);
  }

  lemma PairSymmetric(a: string, b: string)
    ensures PairText(a, b) == PairText(b, a)
  {
    PairTextIs(a, b);
    PairTextIs(b, a);
    if a != b {
      if Text.TextLess(a, b) { TextLessAsymmetric(a, b); } else { Text.TextLessTotal(a, b); }
    }
  }

  lemma RootUp(h: string -> string, xs: seq<string>)
    requires |xs| > 1
    ensures NextLevel(h, xs) != [] && Root(h, xs) == Root(h, NextLevel(h, xs))
  {
  }

  lemma TwinsUp(h: string -> string, n: nat, a: string, c: string)
    requires n > 0 && !PowerOfTwo(n) && (n % 2 == 0 || ((n + 1) / 2) % 2 == 1)
    ensures var m, p, q := (n + 1) / 2, HashConcat(h, a, a), HashConcat(h, c, c);
            && !PowerOfTwo(m)
            && NextLevel(h, Paint(Twins(n).0, a, c)) == Paint(Twins(m).0, p, q)
            && NextLevel(h, Paint(Twins(n).1, a, c)) == Paint(Twins(m).1, p, q)
  {
    var t := Twins((n + 1) / 2);
    DoubleWhole(t.0);
    DoubleWhole(t.1);
    PaintUp(h, t.0, n, a, c);
    PaintUp(h, t.1, n, a, c);
  }

  lemma {:induction false} TwinsShareRoot(h: string -> string, n: nat, a: string, c: string)
    requires n > 0 && !PowerOfTwo(n)
    ensures Root(h, Paint(Twins(n).0, a, c)) == Root(h, Paint(Twins(n).1, a, c))
    decreases n
  {
    var xs, ys := Paint(Twins(n).0, a, c), Paint(Twins(n).1, a, c);
    RootUp(h, xs);
    RootUp(h, ys);
    if n % 2 == 0 || ((n + 1) / 2) % 2 == 1 {
      TwinsUp(h, n, a, c);
      TwinsShareRoot(h, (n + 1) / 2, HashConcat(h, a, a), HashConcat(h, c, c));
    } else {
      SwappedRoots(h, n, a, c);
    }
  }

  lemma SwappedRoots(h: string -> string, n: nat, a: string, c: string)
    requires n % 2 == 1 && n > 1 && ((n + 1) / 2) % 2 == 0
    ensures Root(h, Paint(Ends(n, true), a, c)) == Root(h, Paint(Ends(n, false), a, c))
  {
    var xs, ys := Paint(Ends(n, true), a, c), Paint(Ends(n, false), a, c);
    RootUp(h, xs);
    RootUp(h, ys);
    RootUp(h, NextLevel(h, xs));
    RootUp(h, NextLevel(h, ys));
    SwappedEnds(h, n, a, c);
  }

  lemma DoubleWhole(u: seq<bool>)
    ensures Double(u)[..2 * |u|] == Double(u)
  {
  }

  lemma {:induction false} CountAppend(u: seq<bool>, v: seq<bool>)
    ensures Count(u + v) == Count(u) + Count(v)
  {
    if u == [] {
      assert u + v == v;
    } else {
      assert (u + v)[1..] == u[1..] + v;
      CountAppend(u[1..], v);
    }
  }

  lemma {:induction false} CountDouble(u: seq<bool>)
    ensures Count(Double(u)) == 2 * Count(u)
  {
    if u != [] {
      assert Double(u)[1..][1..] == Double(u[1..]);
      CountDouble(u[1..]);
    }
  }

  lemma {:induction false} CountFalses(n: nat)
    ensures Count(Falses(n)) == 0
  {
    if n > 0 { CountFalses(n - 1); }
  }

  lemma CountOne(b: bool)
    ensures Count([b]) == if b then 1 else 0
  {
    assert [b][1..] == [];
  }

  lemma CountAllButLast(u: seq<bool>)
    requires u != []
    ensures 0 <= Count(u) - Count(u[..|u| - 1]) <= 1
  {
    assert u == u[..|u| - 1] + [u[|u| - 1]];
    CountAppend(u[..|u| - 1], [u[|u| - 1]]);
    CountOne(u[|u| - 1]);
  }

  lemma CountThree(a: bool, b: bool, c: bool)
    ensures Count([a, b, c]) == (if a then 1 else 0) + (if b then 1 else 0) + (if c then 1 else 0)
  {
    assert [a, b, c] == [a] + ([b] + [c]);
    CountAppend([a], [b] + [c]);
    CountAppend([b], [c]);
    CountOne(a);
    CountOne(b);
    CountOne(c);
  }

  lemma TwinsBase(n: nat)
    requires n >= 3
    ensures Count(Falses(n - 3) + [false, false, true]) == 1 && Count(Falses(n - 3) + [true, true, false]) == 2
  {
    CountFalses(n - 3);
    CountAppend(Falses(n - 3), [false, false, true]);
    CountAppend(Falses(n - 3), [true, true, false]);
    CountThree(false, false, true);
    CountThree(true, true, false);
  }

  lemma WholeStaysApart(a: seq<bool>, b: seq<bool>)
    requires Count(a) != Count(b)
    ensures Count(Double(a)) != Count(Double(b))
  {
    CountDouble(a);
    CountDouble(b);
  }

  lemma AllButLastStaysApart(a: seq<bool>, b: seq<bool>)
    requires Count(a) != Count(b) && |a| == |b| > 0
    ensures Count(Double(a)[..2 * |a| - 1]) != Count(Double(b)[..2 * |b| - 1])
  {
    CountDouble(a);
    CountDouble(b);
    CountAllButLast(Double(a));
    CountAllButLast(Double(b));
  }

  lemma {:induction false} TwinsDiffer(n: nat)
    requires n > 0 && !PowerOfTwo(n)
    ensures Count(Twins(n).0) != Count(Twins(n).1)
    decreases n
  {
    if n % 2 == 0 || ((n + 1) / 2) % 2 == 1 {
      var t := Twins((n + 1) / 2);
      TwinsDiffer((n + 1) / 2);
      if n % 2 == 0 { WholeStaysApart(t.0, t.1); } else { AllButLastStaysApart(t.0, t.1); }
    } else {
      TwinsBase(n);
    }
  }

  lemma {:induction false} PaintCount(u: seq<bool>, a: string, c: string)
    requires a != c
    ensures multiset(Paint(u, a, c))[c] == Count(u)
  {
    if u != [] {
      PaintCount(u[1..], a, c);
    }
  }

  /** For every other length, whatever the hash and whichever two leaves are taken, there are two logs
      over them with the same root and different multiplicities. */
  lemma OtherLengthsDoNot(h: string -> string, n: nat, a: string, c: string)
    requires n > 0 && !PowerOfTwo(n) && a != c
    ensures var xs, ys := Paint(Twins(n).0, a, c), Paint(Twins(n).1, a, c);
            && |xs| == |ys| == n
            && Root(h, xs) == Root(h, ys)
            && multiset(xs) != multiset(ys)
  {
    TwinsShareRoot(h, n, a, c);
    TwinsDiffer(n);
    PaintCount(Twins(n).0, a, c);
    PaintCount(Twins(n).1, a, c);
  }

  /** The shortest such logs. */
  lemma ThreeLeaves(h: string -> string, a: string, c: string)
    ensures Root(h, [a, a, c]) == Root(h, [c, c, a])
  {
    assert !PowerOfTwo(3);
    TwinsShareRoot(h, 3, a, c);
    assert Twins(3) == (Ends(3, true), Ends(3, false));
    ThreePainted(true, a, c);
    ThreePainted(false, a, c);
  }

  lemma ThreePainted(last: bool, a: string, c: string)
    ensures Paint(Ends(3, last), a, c) == if last then [a, a, c] else [c, c, a]
  {
    assert Falses(0) == [];
    assert Ends(3, last) == [!last, !last, last];
  }
}
