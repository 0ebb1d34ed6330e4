// `Array.prototype.sort`: a stable sort by a caller's comparator, and the two facts every use
// rests on: the result is a sorted permutation, and for a strict total order it is the only one.

module Sorting {
  import opened Text

  ghost predicate StrictTotal<T(!new)>(lt: (T, T) -> bool) {
    && (forall x :: !lt(x, x))
    && (forall x, y, z :: lt(x, y) && lt(y, z) ==> lt(x, z))
    && (forall x, y :: x != y ==> lt(x, y) || lt(y, x))
  }

  /** A comparator that orders by a key: ties are allowed. */
  ghost predicate StrictWeak<T(!new)>(lt: (T, T) -> bool) {
    && (forall x :: !lt(x, x))
    && (forall x, y, z :: lt(x, y) && lt(y, z) ==> lt(x, z))
    && (forall x, y, z :: lt(x, z) ==> lt(x, y) || lt(y, z))
  }

  predicate Sorted<T>(s: seq<T>, lt: (T, T) -> bool) {
    forall i, j :: 0 <= i < j < |s| ==> !lt(s[j], s[i])
  }

  function Insert<T>(x: T, s: seq<T>, lt: (T, T) -> bool): seq<T> {
    if s == [] || !lt(s[0], x) then [x] + s else [s[0]] + Insert(x, s[1..], lt)
  }

  function Sort<T>(s: seq<T>, lt: (T, T) -> bool): seq<T> {
    if s == [] then [] else Insert(s[0], Sort(s[1..], lt), lt)
  }

  lemma SortPair<T>(a: T, b: T, lt: (T, T) -> bool)
    ensures Sort([a, b], lt) == if lt(b, a) then [b, a] else [a, b]
  {
    assert [a, b][1..] == [b] && [b][1..] == [];
    assert Sort([b], lt) == Insert(b, Sort([], lt), lt) == [b];
    assert Insert(a, [], lt) == [a];
  }

  lemma {:induction false} InsertPermutes<T>(x: T, s: seq<T>, lt: (T, T) -> bool)
    ensures multiset(Insert(x, s, lt)) == multiset{x} + multiset(s)
  {
    if s == [] || !lt(s[0], x) {
    } else {
      InsertPermutes(x, s[1..], lt);
      assert s == [s[0]] + s[1..];
    }
  }

  /** Sorting neither loses, adds nor repeats an element. */
  lemma {:induction false} SortPermutes<T>(s: seq<T>, lt: (T, T) -> bool)
    ensures multiset(Sort(s, lt)) == multiset(s)
    ensures |Sort(s, lt)| == |s|
  {
    if s != [] {
      SortPermutes(s[1..], lt);
      InsertPermutes(s[0], Sort(s[1..], lt), lt);
      assert s == [s[0]] + s[1..];
    }
    assert |multiset(Sort(s, lt))| == |multiset(s)|;
  }

  lemma {:induction false} InsertSorts<T(!new)>(x: T, s: seq<T>, lt: (T, T) -> bool)
    requires StrictWeak(lt) && Sorted(s, lt)
    ensures Sorted(Insert(x, s, lt), lt)
  {
    var r := Insert(x, s, lt);
    if s == [] {
    } else if !lt(s[0], x) {
      forall i, j | 0 <= i < j < |r| ensures !lt(r[j], r[i]) {
        if i == 0 && j > 1 {
          assert r[j] == s[j - 1];
        }
      }
    } else {
      InsertSorts(x, s[1..], lt);
      InsertPermutes(x, s[1..], lt);
      var t := Insert(x, s[1..], lt);
      forall i, j | 0 <= i < j < |r| ensures !lt(r[j], r[i]) {
        if i == 0 {
          assert r[j] == t[j - 1];
          assert t[j - 1] in multiset(t);
          if r[j] != x {
            assert r[j] in s[1..];
          }
        } else {
          assert r[i] == t[i - 1] && r[j] == t[j - 1];
        }
      }
    }
  }

  lemma {:induction false} SortSorts<T(!new)>(s: seq<T>, lt: (T, T) -> bool)
    requires StrictWeak(lt)
    ensures Sorted(Sort(s, lt), lt)
  {
    if s != [] {
      SortSorts(s[1..], lt);
      InsertSorts(s[0], Sort(s[1..], lt), lt);
    }
  }

  lemma TotalIsWeak<T(!new)>(lt: (T, T) -> bool)
    requires StrictTotal(lt)
    ensures StrictWeak(lt)
  {
  }

  lemma HeadsAgree<T(!new)>(a: seq<T>, b: seq<T>, lt: (T, T) -> bool)
    requires a != [] && b != []
    requires a[0] in b && b[0] in a
    requires Sorted(a, lt) && Sorted(b, lt)
    requires a[0] != b[0] ==> lt(a[0], b[0]) || lt(b[0], a[0])
    ensures a[0] == b[0]
  {
  }

  /** Two sorted lists over the same elements are the same list. */
  lemma {:induction false} SortedIsUnique<T(!new)>(a: seq<T>, b: seq<T>, lt: (T, T) -> bool)
    requires multiset(a) == multiset(b)
    requires Sorted(a, lt) && Sorted(b, lt)
    requires forall x, y :: x in a && y in a && x != y ==> lt(x, y) || lt(y, x)
    ensures a == b
  {
    assert |a| == |b| by { assert |multiset(a)| == |multiset(b)|; }
    if a != [] {
      assert a[0] in b by { assert a[0] in multiset(a); }
      assert b[0] in a by { assert b[0] in multiset(b); }
      HeadsAgree(a, b, lt);
      assert a == [a[0]] + a[1..];
      assert b == [b[0]] + b[1..];
      assert multiset(a[1..]) == multiset(a) - multiset{a[0]};
      assert multiset(b[1..]) == multiset(b) - multiset{b[0]};
      SortedIsUnique(a[1..], b[1..], lt);
    }
  }

  ghost predicate Distinct<T>(s: seq<T>) {
    forall i, j :: 0 <= i < j < |s| ==> s[i] != s[j]
  }

  lemma {:induction false} DistinctCountsOne<T>(s: seq<T>, x: T)
    requires Distinct(s)
    ensures multiset(s)[x] <= 1
  {
    if s != [] {
      assert s == [s[0]] + s[1..];
      assert s[0] !in s[1..];
      DistinctCountsOne(s[1..], x);
    }
  }

  lemma TwiceCountsTwo<T>(s: seq<T>, i: nat, j: nat)
    requires i < j < |s| && s[i] == s[j]
    ensures multiset(s)[s[i]] >= 2
  {
    assert s == s[..j] + s[j..];
    assert s[i] in s[..j] && s[i] in s[j..];
    assert multiset(s[..j])[s[i]] >= 1 && multiset(s[j..])[s[i]] >= 1;
  }

  lemma PermutationStaysDistinct<T>(a: seq<T>, b: seq<T>)
    requires Distinct(a) && multiset(a) == multiset(b)
    ensures Distinct(b)
  {
    forall i, j | 0 <= i < j < |b| ensures b[i] != b[j] {
      if b[i] == b[j] {
        TwiceCountsTwo(b, i, j);
        DistinctCountsOne(a, b[i]);
      }
    }
  }

  /** Sorting a list without repetitions by a strict total order gives a strictly increasing list. */
  lemma SortDistinct<T(!new)>(s: seq<T>, lt: (T, T) -> bool)
    requires Distinct(s) && StrictTotal(lt)
    ensures Distinct(Sort(s, lt))
    ensures forall i, j :: 0 <= i < j < |Sort(s, lt)| ==> lt(Sort(s, lt)[i], Sort(s, lt)[j])
  {
    TotalIsWeak(lt);
    SortSorts(s, lt);
    SortPermutes(s, lt);
    PermutationStaysDistinct(s, Sort(s, lt));
  }

  // ---- elements that compare as equal ----

  /** `x` stands before `y`. */
  ghost predicate Precedes<T>(s: seq<T>, x: T, y: T) {
    exists i, j :: 0 <= i < j < |s| && s[i] == x && s[j] == y
  }

  lemma PrecedesAfter<T>(h: T, t: seq<T>, x: T, y: T)
    requires Precedes(t, x, y)
    ensures Precedes([h] + t, x, y)
  {
    var i, j :| 0 <= i < j < |t| && t[i] == x && t[j] == y;
    assert ([h] + t)[i + 1] == x && ([h] + t)[j + 1] == y;
  }

  lemma PrecedesFirst<T>(h: T, t: seq<T>, y: T)
    requires y in t
    ensures Precedes([h] + t, h, y)
  {
    var j :| 0 <= j < |t| && t[j] == y;
    assert ([h] + t)[0] == h && ([h] + t)[j + 1] == y;
  }

  lemma {:induction false} InsertKeepsOrder<T>(h: T, s: seq<T>, lt: (T, T) -> bool, x: T, y: T)
    requires Precedes(s, x, y)
    ensures Precedes(Insert(h, s, lt), x, y)
  {
    if s == [] || !lt(s[0], h) {
      PrecedesAfter(h, s, x, y);
    } else {
      var i, j :| 0 <= i < j < |s| && s[i] == x && s[j] == y;
      var t := s[1..];
      InsertPermutes(h, t, lt);
      if i == 0 {
        assert t[j - 1] == y && y in t;
        assert y in multiset(Insert(h, t, lt));
        PrecedesFirst(x, Insert(h, t, lt), y);
      } else {
        assert t[i - 1] == x && t[j - 1] == y;
        InsertKeepsOrder(h, t, lt, x, y);
        PrecedesAfter(s[0], Insert(h, t, lt), x, y);
      }
    }
  }

  lemma {:induction false} InsertBefore<T>(x: T, s: seq<T>, lt: (T, T) -> bool, y: T)
    requires y in s && !lt(y, x)
    ensures Precedes(Insert(x, s, lt), x, y)
  {
    if !lt(s[0], x) {
      PrecedesFirst(x, s, y);
    } else {
      assert y in s[1..];
      InsertBefore(x, s[1..], lt, y);
      PrecedesAfter(s[0], Insert(x, s[1..], lt), x, y);
    }
  }

  /** Sorting is stable: what does not have to move behind an earlier element stays behind it. */
  lemma {:induction false} SortIsStable<T>(s: seq<T>, lt: (T, T) -> bool, i: nat, j: nat)
    requires i < j < |s| && !lt(s[j], s[i])
    ensures Precedes(Sort(s, lt), s[i], s[j])
  {
    var t := s[1..];
    SortPermutes(t, lt);
    if i == 0 {
      assert s[j] == t[j - 1] && s[j] in multiset(t);
      assert s[j] in multiset(Sort(t, lt));
      InsertBefore(s[0], Sort(t, lt), lt, s[j]);
    } else {
      SortIsStable(t, lt, i - 1, j - 1);
      InsertKeepsOrder(s[0], Sort(t, lt), lt, s[i], s[j]);
    }
  }

  lemma OneOrder<T>(s: seq<T>, x: T, y: T)
    requires Distinct(s) && Precedes(s, x, y)
    ensures !Precedes(s, y, x)
  {
  }

  lemma TextIsTotal()
    ensures StrictTotal(TextLess)
  {
    forall x: string ensures !TextLess(x, x) { TextLessIrreflexive(x); }
    forall x: string, y, z | TextLess(x, y) && TextLess(y, z) ensures TextLess(x, z) { TextLessTransitive(x, y, z); }
    forall x: string, y: string | x != y ensures TextLess(x, y) || TextLess(y, x) { TextLessTotal(x, y); }
  }
}
