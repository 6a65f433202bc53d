/** Stable sorting by a comparison, and why the result does not depend on the input order. */
module Sorting {

  ghost predicate TotalOrder<T(!new)>(le: (T, T) -> bool) {
    && (forall a, b :: le(a, b) || le(b, a))
    && (forall a, b :: le(a, b) && le(b, a) ==> a == b)
    && (forall a, b, c :: le(a, b) && le(b, c) ==> le(a, c))
  }

  /** `le` orders the elements of `s` totally and transitively (it may tie distinct ones). */
  ghost predicate Orders<T(!new)>(le: (T, T) -> bool, s: seq<T>) {
    && (forall a, b :: a in s && b in s ==> le(a, b) || le(b, a))
    && (forall a, b, c :: a in s && b in s && c in s && le(a, b) && le(b, c) ==> le(a, c))
  }

  ghost predicate Antisymmetric<T(!new)>(le: (T, T) -> bool, s: seq<T>) {
    forall a, b :: a in s && b in s && le(a, b) && le(b, a) ==> a == b
  }

  ghost predicate Sorted<T>(s: seq<T>, le: (T, T) -> bool) {
    forall i, j :: 0 <= i < j < |s| ==> le(s[i], s[j])
  }

  function Insert<T>(x: T, s: seq<T>, le: (T, T) -> bool): seq<T> {
    if s == [] || le(x, s[0]) then [x] + s else [s[0]] + Insert(x, s[1..], le)
  }

  function Sort<T>(s: seq<T>, le: (T, T) -> bool): seq<T> {
    if s == [] then [] else Insert(s[0], Sort(s[1..], le), le)
  }

  lemma {:induction false} InsertIsPermutation<T>(x: T, s: seq<T>, le: (T, T) -> bool)
    ensures multiset(Insert(x, s, le)) == multiset{x} + multiset(s)
  {
    if s == [] || le(x, s[0]) {
    } else {
      InsertIsPermutation(x, s[1..], le);
      assert s == [s[0]] + s[1..];
    }
  }

  lemma SameElements<T>(a: seq<T>, b: seq<T>)
    requires multiset(a) == multiset(b)
    ensures |a| == |b| && forall x :: x in a <==> x in b
  {
    assert |multiset(a)| == |multiset(b)|;
    assert forall x :: x in a <==> x in multiset(a);
    assert forall x :: x in b <==> x in multiset(b);
  }

  lemma {:induction false} SortIsPermutation<T>(s: seq<T>, le: (T, T) -> bool)
    ensures multiset(Sort(s, le)) == multiset(s)
    ensures |Sort(s, le)| == |s|
    ensures forall x :: x in Sort(s, le) <==> x in s
  {
    if s != [] {
      SortIsPermutation(s[1..], le);
      InsertIsPermutation(s[0], Sort(s[1..], le), le);
      assert s == [s[0]] + s[1..];
    }
    hide Sort, Insert;
    SameElements(Sort(s, le), s);
  }

  lemma OrdersWithin<T(!new)>(le: (T, T) -> bool, s: seq<T>, part: seq<T>)
    requires Orders(le, s) && forall y :: y in part ==> y in s
    ensures Orders(le, part)
  {
  }

  lemma InFrontOfSorted<T(!new)>(x: T, s: seq<T>, le: (T, T) -> bool)
    requires Sorted(s, le) && forall y :: y in s ==> le(x, y)
    ensures Sorted([x] + s, le)
  {
  }

  lemma HeadIsLeast<T(!new)>(x: T, s: seq<T>, le: (T, T) -> bool)
    requires Orders(le, [x] + s) && Sorted(s, le) && s != [] && le(x, s[0])
    ensures forall y :: y in s ==> le(x, y)
  {
    assert x in [x] + s && s[0] in [x] + s;
    forall y | y in s ensures le(x, y) {
      var i :| 0 <= i < |s| && s[i] == y;
      assert y in [x] + s && (i == 0 || le(s[0], s[i]));
    }
  }

  lemma HeadPrecedes<T(!new)>(x: T, s: seq<T>, le: (T, T) -> bool)
    requires Orders(le, [x] + s) && Sorted(s, le) && s != [] && !le(x, s[0])
    ensures forall y :: y in Insert(x, s[1..], le) ==> le(s[0], y)
  {
    assert x in [x] + s && s[0] in [x] + s;
    InsertIsPermutation(x, s[1..], le);
    hide Insert, Orders;
    forall y | y in Insert(x, s[1..], le) ensures le(s[0], y) {
      assert y in multiset(Insert(x, s[1..], le));
      assert y == x || y in s[1..];
    }
  }

  lemma {:induction false} InsertKeepsSorted<T(!new)>(x: T, s: seq<T>, le: (T, T) -> bool)
    requires Orders(le, [x] + s) && Sorted(s, le)
    ensures Sorted(Insert(x, s, le), le)
  {
    hide Sorted, Orders;
    if s == [] {
      InFrontOfSorted(x, s, le);
    } else if le(x, s[0]) {
      HeadIsLeast(x, s, le);
      InFrontOfSorted(x, s, le);
    } else {
      OrdersWithin(le, [x] + s, [x] + s[1..]);
      TailSorted(s, le);
      InsertKeepsSorted(x, s[1..], le);
      HeadPrecedes(x, s, le);
      InFrontOfSorted(s[0], Insert(x, s[1..], le), le);
    }
  }

  lemma TailSorted<T>(s: seq<T>, le: (T, T) -> bool)
    requires s != [] && Sorted(s, le)
    ensures Sorted(s[1..], le)
  {
  }

  lemma SortStep<T>(s: seq<T>, le: (T, T) -> bool)
    ensures Sort(s, le) == if s == [] then [] else Insert(s[0], Sort(s[1..], le), le)
  {
  }

  lemma NothingSorted<T>(le: (T, T) -> bool)
    ensures Sorted([], le)
  {
  }

  lemma {:induction false} SortSorts<T(!new)>(s: seq<T>, le: (T, T) -> bool)
    requires Orders(le, s)
    ensures Sorted(Sort(s, le), le)
  {
    hide Orders, Sorted, Insert, Sort;
    SortStep(s, le);
    if s == [] {
      NothingSorted(le);
    } else {
      OrdersWithin(le, s, s[1..]);
      SortSorts(s[1..], le);
      SortIsPermutation(s[1..], le);
      OrdersWithin(le, s, [s[0]] + Sort(s[1..], le));
      InsertKeepsSorted(s[0], Sort(s[1..], le), le);
    }
  }

  lemma SameHead<T(!new)>(a: seq<T>, b: seq<T>, le: (T, T) -> bool)
    requires Sorted(a, le) && Sorted(b, le) && multiset(a) == multiset(b) && a != []
    requires Antisymmetric(le, a)
    ensures b != [] && a[0] == b[0]
  {
    assert a[0] in multiset(a);
    assert a[0] in b;
    var i :| 0 <= i < |b| && b[i] == a[0];
    assert b[0] in multiset(b);
    assert b[0] in a;
    var j :| 0 <= j < |a| && a[j] == b[0];
    if i != 0 && j != 0 {
      assert le(b[0], b[i]);
      assert le(a[0], a[j]);
      assert a[0] in a;
    }
  }

  lemma TailMultiset<T>(a: seq<T>)
    requires a != []
    ensures multiset(a[1..]) == multiset(a) - multiset{a[0]}
  {
    assert a == [a[0]] + a[1..];
  }

  lemma RemoveMultiset<T>(a: seq<T>, i: nat)
    requires i < |a|
    ensures multiset(a[..i] + a[i + 1..]) == multiset(a) - multiset{a[i]}
  {
    assert a == a[..i] + [a[i]] + a[i + 1..];
  }

  lemma TailKeeps<T(!new)>(a: seq<T>, le: (T, T) -> bool)
    requires a != [] && Sorted(a, le)
    ensures Sorted(a[1..], le) && (Antisymmetric(le, a) ==> Antisymmetric(le, a[1..]))
  {
    assert forall x :: x in a[1..] ==> x in a;
  }

  lemma NothingElse<T>(b: seq<T>)
    requires multiset(b) == multiset{}
    ensures b == []
  {
    assert |multiset(b)| == 0;
  }

  lemma HeadAndTail<T>(a: seq<T>, b: seq<T>)
    requires a != [] && b != [] && a[0] == b[0] && a[1..] == b[1..]
    ensures a == b
  {
    assert a == [a[0]] + a[1..] && b == [b[0]] + b[1..];
  }

  lemma SameTails<T(!new)>(a: seq<T>, b: seq<T>, le: (T, T) -> bool)
    requires a != [] && b != [] && a[0] == b[0] && multiset(a) == multiset(b)
    requires Sorted(a, le) && Sorted(b, le) && Antisymmetric(le, a)
    ensures Sorted(a[1..], le) && Sorted(b[1..], le) && Antisymmetric(le, a[1..])
    ensures multiset(a[1..]) == multiset(b[1..])
  {
    hide Sorted, Antisymmetric;
    TailMultiset(a);
    TailMultiset(b);
    TailKeeps(a, le);
    TailKeeps(b, le);
  }

  /** Two sorted arrangements of the same elements are the same sequence. */
  lemma {:induction false} SortedUnique<T(!new)>(a: seq<T>, b: seq<T>, le: (T, T) -> bool)
    requires Sorted(a, le) && Sorted(b, le) && multiset(a) == multiset(b)
    requires Antisymmetric(le, a)
    ensures a == b
  {
    hide Sorted, Antisymmetric;
    if a == [] {
      NothingElse(b);
    } else {
      SameHead(a, b, le);
      SameTails(a, b, le);
      SortedUnique(a[1..], b[1..], le);
      HeadAndTail(a, b);
    }
  }

  /** Sorting forgets the input order whenever distinct elements never tie. */
  lemma SortCanonical<T(!new)>(a: seq<T>, b: seq<T>, le: (T, T) -> bool)
    requires multiset(a) == multiset(b)
    requires Orders(le, a) && Antisymmetric(le, a)
    ensures Sort(a, le) == Sort(b, le)
  {
    assert forall x :: x in b <==> x in multiset(b);
    assert forall x :: x in a <==> x in multiset(a);
    SortSorts(a, le);
    SortSorts(b, le);
    SortIsPermutation(a, le);
    SortIsPermutation(b, le);
    SortedUnique(Sort(a, le), Sort(b, le), le);
  }

  /** Order of character codes, first difference first: the default order of `Array.sort`. */
  predicate LexLe(a: string, b: string) {
    a == "" || (b != "" && (a[0] < b[0] || (a[0] == b[0] && LexLe(a[1..], b[1..]))))
  }

  /** One is the beginning of the other, or the first character that differs is smaller. */
  lemma {:induction false} LexIsFirstDifference(a: string, b: string)
    ensures LexLe(a, b) <==> a <= b || exists i: nat :: FirstSmaller(a, b, i)
  {
    if a != "" && b != "" && a[0] == b[0] {
      LexIsFirstDifference(a[1..], b[1..]);
      assert a == [a[0]] + a[1..] && b == [b[0]] + b[1..];
      if i: nat :| FirstSmaller(a, b, i) {
        assert i > 0;
        assert a[1..][..i - 1] == a[..i][1..] && b[1..][..i - 1] == b[..i][1..];
        assert FirstSmaller(a[1..], b[1..], i - 1);
      }
      if i: nat :| FirstSmaller(a[1..], b[1..], i) {
        assert a[..i + 1] == [a[0]] + a[1..][..i] && b[..i + 1] == [b[0]] + b[1..][..i];
        assert FirstSmaller(a, b, i + 1);
      }
    } else if a != "" && b != "" {
      if a[0] < b[0] { assert FirstSmaller(a, b, 0); }
      forall i: nat | FirstSmaller(a, b, i) ensures i == 0 {
        if i > 0 { SameBeginning(a, b, i); }
      }
    }
  }

  lemma SameBeginning(a: string, b: string, i: nat)
    requires 0 < i <= |a| && i <= |b| && a[..i] == b[..i]
    ensures a[0] == b[0]
  {
    assert a[..i][0] == a[0] && b[..i][0] == b[0];
  }

  ghost predicate FirstSmaller(a: string, b: string, i: nat) {
    i < |a| && i < |b| && a[..i] == b[..i] && a[i] < b[i]
  }

  lemma {:induction false} LexTotal(a: string, b: string)
    ensures LexLe(a, b) || LexLe(b, a)
    ensures LexLe(a, b) && LexLe(b, a) ==> a == b
  {
    if a != "" && b != "" {
      LexTotal(a[1..], b[1..]);
      assert a == [a[0]] + a[1..] && b == [b[0]] + b[1..];
    }
  }

  lemma {:induction false} LexTransitive(a: string, b: string, c: string)
    requires LexLe(a, b) && LexLe(b, c)
    ensures LexLe(a, c)
  {
    if a != "" && a[0] == b[0] == c[0] {
      LexTransitive(a[1..], b[1..], c[1..]);
    }
  }

  lemma LexIsTotalOrder()
    ensures TotalOrder(LexLe)
  {
    forall a: string, b: string
      ensures (LexLe(a, b) || LexLe(b, a)) && (LexLe(a, b) && LexLe(b, a) ==> a == b)
    {
      LexTotal(a, b);
    }
    forall a: string, b: string, c: string | LexLe(a, b) && LexLe(b, c) ensures LexLe(a, c) {
      LexTransitive(a, b, c);
    }
  }

  ghost predicate Distinct<T>(s: seq<T>) {
    forall i, j :: 0 <= i < j < |s| ==> s[i] != s[j]
  }

  /** The first occurrence of each element, as `new Set` keeps them. */
  function Dedup<T(==, !new)>(s: seq<T>): (r: seq<T>)
    ensures forall x :: x in r <==> x in s
    ensures Distinct(r)
  {
    if s == [] then []
    else
      var init := Dedup(s[..|s| - 1]);
      var last := s[|s| - 1];
      assert s == s[..|s| - 1] + [last];
      if last in init then init else init + [last]
  }

  lemma {:induction false} DistinctMultiset<T>(s: seq<T>)
    requires Distinct(s)
    ensures forall x :: x in s ==> multiset(s)[x] == 1
    ensures forall x :: x !in s ==> multiset(s)[x] == 0
  {
    if s != [] {
      DistinctMultiset(s[1..]);
      assert s == [s[0]] + s[1..];
      assert s[0] !in s[1..];
    }
  }

  /** Duplicate-free sequences over the same elements are permutations of each other. */
  lemma DistinctSameElements<T>(a: seq<T>, b: seq<T>)
    requires Distinct(a) && Distinct(b) && forall x :: x in a <==> x in b
    ensures multiset(a) == multiset(b)
  {
    DistinctMultiset(a);
    DistinctMultiset(b);
  }
}
