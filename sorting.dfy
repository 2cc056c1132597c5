/**
 * The stable `Array.prototype.sort` the generators call with a numeric
 * comparator (`(a, b) => key(a) - key(b)`), as a stable insertion sort, and
 * counting over sequences.
 */
module Sorting {

  predicate SortedBy<T>(s: seq<T>, key: T -> real) {
    forall i, j :: 0 <= i < j < |s| ==> key(s[i]) <= key(s[j])
  }

  /** The number of leading elements of s whose key is at most key(x). */
  function InsertPos<T>(x: T, s: seq<T>, key: T -> real): (p: nat)
    ensures p <= |s|
    ensures forall i :: 0 <= i < p ==> key(s[i]) <= key(x)
    ensures p < |s| ==> key(x) < key(s[p])
  {
    if s == [] || key(x) < key(s[0]) then 0 else 1 + InsertPos(x, s[1..], key)
  }

  /**
   * One step of the insertion sort: x goes after every leading element whose
   * key is at most key(x), so it follows the elements with an equal key.
   */
  function Insert<T>(x: T, s: seq<T>, key: T -> real): (r: seq<T>)
    ensures |r| == |s| + 1
  {
    if s == [] || key(x) < key(s[0]) then [x] + s else [s[0]] + Insert(x, s[1..], key)
  }

  /** x lands at position InsertPos, between the elements before and after it. */
  lemma {:induction false} InsertShape<T>(x: T, s: seq<T>, key: T -> real)
    ensures Insert(x, s, key) == s[..InsertPos(x, s, key)] + [x] + s[InsertPos(x, s, key)..]
  {
    if s == [] || key(x) < key(s[0]) {
    } else {
      InsertShape(x, s[1..], key);
      assert s == [s[0]] + s[1..];
      assert s[..InsertPos(x, s, key)] == [s[0]] + s[1..][..InsertPos(x, s[1..], key)];
    }
  }

  lemma {:induction false} InsertPerm<T>(x: T, s: seq<T>, key: T -> real)
    ensures multiset(Insert(x, s, key)) == multiset(s) + multiset{x}
  {
    if s == [] || key(x) < key(s[0]) {
      assert multiset([x] + s) == multiset([x]) + multiset(s);
    } else {
      InsertPerm(x, s[1..], key);
      assert s == [s[0]] + s[1..];
      assert multiset(s) == multiset([s[0]]) + multiset(s[1..]);
      assert multiset([s[0]] + Insert(x, s[1..], key)) == multiset([s[0]]) + multiset(Insert(x, s[1..], key));
    }
  }

  lemma InsertAt<T>(x: T, s: seq<T>, key: T -> real, k: nat)
    requires k <= |s|
    ensures var p := InsertPos(x, s, key);
      Insert(x, s, key)[k] == if k < p then s[k] else if k == p then x else s[k - 1]
  {
    InsertShape(x, s, key);
  }

  lemma InsertSorted<T>(x: T, s: seq<T>, key: T -> real)
    requires SortedBy(s, key)
    ensures SortedBy(Insert(x, s, key), key)
  {
    var p := InsertPos(x, s, key);
    var r := Insert(x, s, key);
    InsertPerm(x, s, key);
    forall i, j | 0 <= i < j < |r|
      ensures key(r[i]) <= key(r[j])
    {
      InsertAt(x, s, key, i);
      InsertAt(x, s, key, j);
      if j < p {
        assert key(s[i]) <= key(s[j]);
      } else if j == p {
        assert key(s[i]) <= key(x);
      } else if i < p {
        assert key(s[i]) <= key(x) < key(s[p]);
        assert p == j - 1 || key(s[p]) <= key(s[j - 1]);
      } else if i == p {
        assert key(x) < key(s[p]);
        assert p == j - 1 || key(s[p]) <= key(s[j - 1]);
      } else {
        assert key(s[i - 1]) <= key(s[j - 1]);
      }
    }
  }

  /** The engine's stable sort with the comparator `(a, b) => key(a) - key(b)`: ascending by key. */
  function SortBy<T>(s: seq<T>, key: T -> real): (r: seq<T>)
    ensures |r| == |s|
    ensures multiset(r) == multiset(s)
    ensures SortedBy(r, key)
  {
    if s == [] then []
    else
      var prefix := SortBy(s[..|s| - 1], key);
      assert s == s[..|s| - 1] + [s[|s| - 1]];
      InsertPerm(s[|s| - 1], prefix, key);
      InsertSorted(s[|s| - 1], prefix, key);
      Insert(s[|s| - 1], prefix, key)
  }

  /** The number of elements of s that satisfy p. */
  function CountWhere<T>(s: seq<T>, p: T -> bool): (n: nat)
    ensures n <= |s|
  {
    if s == [] then 0 else (if p(s[0]) then 1 else 0) + CountWhere(s[1..], p)
  }

  lemma {:induction false} CountWhereAppend<T>(a: seq<T>, b: seq<T>, p: T -> bool)
    ensures CountWhere(a + b, p) == CountWhere(a, p) + CountWhere(b, p)
  {
    if a == [] {
      assert a + b == b;
    } else {
      assert (a + b)[1..] == a[1..] + b;
      CountWhereAppend(a[1..], b, p);
    }
  }

  lemma {:induction false} CountWhereRemove<T>(b: seq<T>, i: nat, p: T -> bool)
    requires i < |b|
    ensures CountWhere(b, p) == CountWhere(b[..i] + b[i + 1..], p) + (if p(b[i]) then 1 else 0)
  {
    var front, back := b[..i], b[i + 1..];
    var tail := [b[i]] + back;
    assert b == front + tail;
    CountWhereAppend(front, tail, p);
    CountWhereAppend(front, back, p);
    assert tail[1..] == back;
    assert CountWhere(tail, p) == (if p(b[i]) then 1 else 0) + CountWhere(back, p);
  }

  lemma {:induction false} MultisetRemove<T>(b: seq<T>, i: nat)
    requires i < |b|
    ensures multiset(b[..i] + b[i + 1..]) == multiset(b) - multiset{b[i]}
  {
    assert b == b[..i] + [b[i]] + b[i + 1..];
  }

  /** Counting is invariant under permutation. */
  lemma {:induction false} CountWherePerm<T>(a: seq<T>, b: seq<T>, p: T -> bool)
    requires multiset(a) == multiset(b)
    ensures CountWhere(a, p) == CountWhere(b, p)
  {
    if a != [] {
      var x := a[0];
      assert x in multiset(b);
      var i :| 0 <= i < |b| && b[i] == x;
      var rest := b[..i] + b[i + 1..];
      assert multiset(a[1..]) == multiset(rest) by {
        MultisetRemove(b, i);
        assert a == [x] + a[1..];
        assert multiset(a) == multiset{x} + multiset(a[1..]);
      }
      CountWherePerm(a[1..], rest, p);
      CountWhereRemove(b, i, p);
    }
  }

  /** If every one of the first k elements satisfies p, at least k elements do. */
  lemma {:induction false} CountWherePrefix<T>(s: seq<T>, k: nat, p: T -> bool)
    requires k <= |s|
    requires forall i :: 0 <= i < k ==> p(s[i])
    ensures CountWhere(s, p) >= k
  {
    if k > 0 {
      CountWherePrefix(s[1..], k - 1, p);
    }
  }

  /** If no element from index k on satisfies p, at most k elements do. */
  lemma {:induction false} CountWhereSuffix<T>(s: seq<T>, k: nat, p: T -> bool)
    requires k <= |s|
    requires forall i :: k <= i < |s| ==> !p(s[i])
    ensures CountWhere(s, p) <= k
  {
    if s != [] {
      if k == 0 {
        CountWhereNone(s, p);
      } else {
        CountWhereSuffix(s[1..], k - 1, p);
      }
    }
  }

  lemma {:induction false} CountWhereNone<T>(s: seq<T>, p: T -> bool)
    requires forall i :: 0 <= i < |s| ==> !p(s[i])
    ensures CountWhere(s, p) == 0
  {
    if s != [] {
      CountWhereNone(s[1..], p);
    }
  }

  /** No element occurs twice. */
  predicate NoDup<T(==)>(s: seq<T>) {
    forall i, j :: 0 <= i < j < |s| ==> s[i] != s[j]
  }

  lemma NoDupMultiplicity<T>(s: seq<T>)
    ensures NoDup(s) <==> forall x :: multiset(s)[x] <= 1
  {
    if NoDup(s) {
      NoDupBounded(s);
    } else {
      var i, j :| 0 <= i < j < |s| && s[i] == s[j];
      TwoOccurrences(s, i, j);
    }
  }

  lemma TwoOccurrences<T>(s: seq<T>, i: nat, j: nat)
    requires i < j < |s| && s[i] == s[j]
    ensures multiset(s)[s[i]] >= 2
  {
    assert s == s[..j] + [s[j]] + s[j + 1..];
    assert s[i] in s[..j];
  }

  lemma {:induction false} NoDupBounded<T>(s: seq<T>)
    requires NoDup(s)
    ensures forall x :: multiset(s)[x] <= 1
  {
    if s != [] {
      var s', last := s[..|s| - 1], s[|s| - 1];
      assert s == s' + [last];
      assert NoDup(s');
      NoDupBounded(s');
      assert last !in s';
      assert multiset(s) == multiset(s') + multiset{last};
    }
  }

  /** A permutation of a sequence without duplicates has none either. */
  lemma NoDupPerm<T>(a: seq<T>, b: seq<T>)
    requires multiset(a) == multiset(b)
    requires NoDup(b)
    ensures NoDup(a)
  {
    NoDupMultiplicity(a);
    NoDupMultiplicity(b);
  }

  /** The elements of s that satisfy p, in their order: `Array.prototype.filter`. */
  function Filter<T>(s: seq<T>, p: T -> bool): (r: seq<T>)
    ensures |r| == CountWhere(s, p)
    ensures forall i :: 0 <= i < |r| ==> p(r[i])
    ensures multiset(r) <= multiset(s)
  {
    if s == [] then []
    else
      var rest := Filter(s[1..], p);
      assert s == [s[0]] + s[1..];
      if p(s[0]) then [s[0]] + rest else rest
  }

  /** An element of s that passes p is kept. */
  lemma {:induction false} FilterKeeps<T>(s: seq<T>, p: T -> bool, i: nat)
    requires i < |s| && p(s[i])
    ensures s[i] in Filter(s, p)
  {
    if i > 0 {
      FilterKeeps(s[1..], p, i - 1);
    }
  }

  lemma {:induction false} FilterNoDup<T>(s: seq<T>, p: T -> bool)
    requires NoDup(s)
    ensures NoDup(Filter(s, p))
  {
    if s != [] {
      assert NoDup(s[1..]);
      FilterNoDup(s[1..], p);
      assert s[0] !in s[1..];
      var rest := Filter(s[1..], p);
      assert s[0] !in multiset(rest) by {
        assert s[0] !in multiset(s[1..]);
      }
      if p(s[0]) {
        assert s == [s[0]] + s[1..];
        assert Filter(s, p) == [s[0]] + rest;
      }
    }
  }

  /** Two sequences without duplicates that hold the same elements are permutations of each other. */
  lemma NoDupSamePerm<T>(a: seq<T>, b: seq<T>)
    requires NoDup(a) && NoDup(b)
    requires forall i :: 0 <= i < |a| ==> a[i] in b
    requires forall i :: 0 <= i < |b| ==> b[i] in a
    ensures multiset(a) == multiset(b)
  {
    NoDupBounded(a);
    NoDupBounded(b);
    forall x ensures multiset(a)[x] == multiset(b)[x] {
      if x in a {
        assert multiset(a)[x] >= 1 && multiset(b)[x] >= 1;
      } else {
        assert multiset(a)[x] == 0 && multiset(b)[x] == 0;
      }
    }
  }

  function InSeq<T(==)>(b: seq<T>): T -> bool {
    x => x in b
  }

  /**
   * Counting the elements of a that occur in b, when both are free of
   * duplicates and every element of b is in a, gives the length of b.
   */
  lemma CountMembers<T>(a: seq<T>, b: seq<T>)
    requires NoDup(a) && NoDup(b)
    requires forall i :: 0 <= i < |b| ==> b[i] in a
    ensures CountWhere(a, InSeq(b)) == |b|
  {
    var f := Filter(a, InSeq(b));
    FilterNoDup(a, InSeq(b));
    forall i | 0 <= i < |b| ensures b[i] in f {
      var j :| 0 <= j < |a| && a[j] == b[i];
      FilterKeeps(a, InSeq(b), j);
    }
    NoDupSamePerm(f, b);
    assert |f| == |multiset(f)| == |multiset(b)| == |b|;
  }

  /** Elements of a sequence sorted by key that come later have a key at least as large. */
  lemma SortedIndex<T>(s: seq<T>, key: T -> real, i: nat, j: nat)
    requires SortedBy(s, key) && i <= j < |s|
    ensures key(s[i]) <= key(s[j])
  {
  }

  /** Sequences without duplicates and without a common element concatenate without duplicates. */
  lemma NoDupConcat<T>(a: seq<T>, b: seq<T>)
    requires NoDup(a) && NoDup(b)
    requires forall i, j :: 0 <= i < |a| && 0 <= j < |b| ==> a[i] != b[j]
    ensures NoDup(a + b)
  {
    var c := a + b;
    forall i, j | 0 <= i < j < |c| ensures c[i] != c[j] {
      if j < |a| {
      } else if i >= |a| {
        assert c[i] == b[i - |a|] && c[j] == b[j - |a|];
      } else {
        assert c[i] == a[i] && c[j] == b[j - |a|];
      }
    }
  }

  /** Predicates that agree on every element of s count the same. */
  lemma {:induction false} CountWhereAgree<T>(s: seq<T>, p: T -> bool, q: T -> bool)
    requires forall i :: 0 <= i < |s| ==> p(s[i]) == q(s[i])
    ensures CountWhere(s, p) == CountWhere(s, q)
  {
    if s != [] {
      CountWhereAgree(s[1..], p, q);
    }
  }

  /** Predicates that agree on every element of s filter it alike. */
  lemma {:induction false} FilterAgree<T>(s: seq<T>, p: T -> bool, q: T -> bool)
    requires forall i :: 0 <= i < |s| ==> p(s[i]) == q(s[i])
    ensures Filter(s, p) == Filter(s, q)
  {
    if s != [] {
      FilterAgree(s[1..], p, q);
    }
  }

  function Not<T>(p: T -> bool): T -> bool {
    x => !p(x)
  }

  /** Every element satisfies p or its negation. */
  lemma {:induction false} CountWhereSplit<T>(s: seq<T>, p: T -> bool)
    ensures CountWhere(s, p) + CountWhere(s, Not(p)) == |s|
  {
    if s != [] {
      CountWhereSplit(s[1..], p);
    }
  }

  /** A property of every element of b holds of every element of a sub-multiset of b. */
  lemma AllOfSub<T>(a: seq<T>, b: seq<T>, p: T -> bool)
    requires multiset(a) <= multiset(b)
    requires forall i :: 0 <= i < |b| ==> p(b[i])
    ensures forall i :: 0 <= i < |a| ==> p(a[i])
  {
    forall i | 0 <= i < |a| ensures p(a[i]) {
      assert a[i] in multiset(b);
      var j :| 0 <= j < |b| && b[j] == a[i];
    }
  }

  /** Every element of a filtered sequence is an element of the original that passes. */
  lemma FilterAll<T>(s: seq<T>, p: T -> bool, q: T -> bool)
    requires forall i :: 0 <= i < |s| ==> q(s[i])
    ensures forall i :: 0 <= i < |Filter(s, p)| ==> q(Filter(s, p)[i]) && p(Filter(s, p)[i])
  {
    AllOfSub(Filter(s, p), s, q);
  }

  /** An element that passes p is in every reordering of the filtered sequence. */
  lemma InSortedFilter<T>(s: seq<T>, p: T -> bool, key: T -> real, x: T)
    requires x in s && p(x)
    ensures x in SortBy(Filter(s, p), key)
  {
    var i :| 0 <= i < |s| && s[i] == x;
    FilterKeeps(s, p, i);
    assert x in multiset(Filter(s, p));
  }

  function Both<T>(p: T -> bool, q: T -> bool): T -> bool {
    x => p(x) && q(x)
  }

  /** Sorting a filtered sequence keeps only elements that pass, and only elements of the original. */
  lemma SortFilterAll<T>(s: seq<T>, p: T -> bool, q: T -> bool, key: T -> real)
    requires forall i :: 0 <= i < |s| ==> q(s[i])
    ensures forall i :: 0 <= i < |SortBy(Filter(s, p), key)| ==> Both(q, p)(SortBy(Filter(s, p), key)[i])
  {
    var f := Filter(s, p);
    assert forall i :: 0 <= i < |f| ==> Both(q, p)(f[i]) by {
      FilterAll(s, p, q);
    }
    AllOfSub(SortBy(f, key), f, Both(q, p));
  }

  lemma InAppendLeft<T>(a: seq<T>, b: seq<T>, x: T)
    requires x in a
    ensures x in a + b
  {
  }

  lemma InAppendRight<T>(a: seq<T>, b: seq<T>, i: nat)
    requires i < |b|
    ensures b[i] in a + b
  {
    assert (a + b)[|a| + i] == b[i];
  }

  lemma InAppendRightElem<T>(a: seq<T>, b: seq<T>, x: T)
    requires x in b
    ensures x in a + b
  {
    var i :| 0 <= i < |b| && b[i] == x;
    InAppendRight(a, b, i);
  }
}
