/** Sorting as Go's `sort.Slice` promises it: a sorted permutation. A comparison that tells any two
    elements of the slice apart leaves no choice, whatever the algorithm and the initial order. */
module Ordering {

  /** Go's `<` on strings. UTF-8 keeps code-point order, so comparing bytes is comparing characters. */
  predicate StringLess(a: string, b: string) {
    if b == "" then false
    else if a == "" then true
    else if a[0] != b[0] then a[0] < b[0]
    else StringLess(a[1..], b[1..])
  }

  lemma {:induction false} StringLessAsymmetric(a: string, b: string)
    requires StringLess(a, b)
    ensures !StringLess(b, a)
    decreases |a|
  {
    if a != "" && a[0] == b[0] {
      StringLessAsymmetric(a[1..], b[1..]);
    }
  }

  lemma {:induction false} StringLessSplits(a: string, b: string, c: string)
    requires StringLess(a, b)
    ensures StringLess(a, c) || StringLess(c, b)
    decreases |a|
  {
    if a != "" && c != "" && a[0] == b[0] == c[0] {
      StringLessSplits(a[1..], b[1..], c[1..]);
    }
  }

  lemma {:induction false} StringLessTotal(a: string, b: string)
    ensures a == b || StringLess(a, b) || StringLess(b, a)
    decreases |a|
  {
    if a != "" && b != "" && a[0] == b[0] {
      StringLessTotal(a[1..], b[1..]);
      assert a == [a[0]] + a[1..] && b == [b[0]] + b[1..];
    }
  }

  /** After a common beginning of length `n`, `a` ends or has the smaller character. */
  predicate LessFrom(a: string, b: string, n: nat) {
    n <= |a| && n < |b| && a[..n] == b[..n] && (n == |a| || a[n] < b[n])
  }

  lemma StringLessMeans(a: string, b: string)
    ensures StringLess(a, b) <==> exists n: nat :: LessFrom(a, b, n)
  {
    if StringLess(a, b) {
      var n := LessPlace(a, b);
    }
    forall n: nat | LessFrom(a, b, n) ensures StringLess(a, b) {
      LessFromIsLess(a, b, n);
    }
  }

  lemma {:induction false} LessPlace(a: string, b: string) returns (n: nat)
    requires StringLess(a, b)
    ensures LessFrom(a, b, n)
    decreases |a|
  {
    if a == "" || a[0] < b[0] {
      n := 0;
    } else {
      n := LessPlace(a[1..], b[1..]);
      assert a[..n + 1] == [a[0]] + a[1..][..n] && b[..n + 1] == [b[0]] + b[1..][..n];
      n := n + 1;
    }
  }

  lemma {:induction false} LessFromIsLess(a: string, b: string, n: nat)
    requires LessFrom(a, b, n)
    ensures StringLess(a, b)
    decreases n
  {
    if n > 0 {
      assert a[0] == a[..n][0] == b[..n][0] == b[0];
      assert a[1..][..n - 1] == a[..n][1..] && b[1..][..n - 1] == b[..n][1..];
      LessFromIsLess(a[1..], b[1..], n - 1);
    }
  }

  ghost predicate StrictWeak<T(!new)>(less: (T, T) -> bool) {
    && (forall x, y :: less(x, y) ==> !less(y, x))
    && (forall x, y, z :: less(x, y) ==> less(x, z) || less(z, y))
  }

  ghost predicate Sorted<T>(less: (T, T) -> bool, s: seq<T>) {
    forall i, j :: 0 <= i < j < |s| ==> !less(s[j], s[i])
  }

  /** `less` tells any two different elements of `s` apart. */
  ghost predicate Separates<T>(less: (T, T) -> bool, s: seq<T>) {
    forall x, y :: x in s && y in s && x != y ==> less(x, y) || less(y, x)
  }

  function Insert<T>(less: (T, T) -> bool, x: T, s: seq<T>): (r: seq<T>)
    ensures multiset(r) == multiset(s) + multiset{x}
    ensures |r| == |s| + 1
  {
    if s == [] then [x]
    else if less(s[0], x) then
      assert s == [s[0]] + s[1..];
      [s[0]] + Insert(less, x, s[1..])
    else [x] + s
  }

  function Sort<T>(less: (T, T) -> bool, s: seq<T>): (r: seq<T>)
    ensures multiset(r) == multiset(s)
    ensures |r| == |s|
  {
    if s == [] then []
    else
      assert s == [s[0]] + s[1..];
      Insert(less, s[0], Sort(less, s[1..]))
  }

  lemma {:induction false} InsertSorted<T(!new)>(less: (T, T) -> bool, x: T, s: seq<T>)
    requires StrictWeak(less) && Sorted(less, s)
    ensures Sorted(less, Insert(less, x, s))
  {
    if s != [] && less(s[0], x) {
      InsertSorted(less, x, s[1..]);
      var t := Insert(less, x, s[1..]);
      forall k | 0 <= k < |t| ensures !less(t[k], s[0]) {
        assert t[k] in multiset(s[1..]) + multiset{x};
      }
    } else if s != [] {
      forall k | 0 <= k < |s| ensures !less(s[k], x) {}
    }
  }

  lemma {:induction false} SortSorted<T(!new)>(less: (T, T) -> bool, s: seq<T>)
    requires StrictWeak(less)
    ensures Sorted(less, Sort(less, s))
  {
    if s != [] {
      SortSorted(less, s[1..]);
      InsertSorted(less, s[0], Sort(less, s[1..]));
    }
  }

  lemma FirstIsLeast<T(!new)>(less: (T, T) -> bool, s: seq<T>, x: T)
    requires s != [] && Sorted(less, s) && x in s
    ensures x == s[0] || !less(x, s[0])
  {
    var k :| 0 <= k < |s| && s[k] == x;
  }

  lemma SameFirst<T(!new)>(less: (T, T) -> bool, a: seq<T>, b: seq<T>)
    requires a != [] && b != [] && a[0] in b && b[0] in a
    requires Separates(less, a) && Sorted(less, a) && Sorted(less, b)
    ensures a[0] == b[0]
  {
    FirstIsLeast(less, a, b[0]);
    FirstIsLeast(less, b, a[0]);
  }

  lemma SameRest<T>(a: seq<T>, b: seq<T>)
    requires a != [] && b != [] && a[0] == b[0] && multiset(a) == multiset(b)
    ensures multiset(a[1..]) == multiset(b[1..])
  {
    assert a == [a[0]] + a[1..] && b == [b[0]] + b[1..];
    assert multiset(a[1..]) == multiset(a) - multiset{a[0]};
    assert multiset(b[1..]) == multiset(b) - multiset{b[0]};
  }

  /** Two sorted arrangements of the same elements are the same when `less` separates them. */
  lemma {:induction false} SortedUnique<T(!new)>(less: (T, T) -> bool, a: seq<T>, b: seq<T>)
    requires multiset(a) == multiset(b) && Separates(less, a)
    requires Sorted(less, a) && Sorted(less, b)
    ensures a == b
  {
    assert |a| == |multiset(a)| == |multiset(b)| == |b|;
    if a != [] {
      assert a[0] in multiset(b) && b[0] in multiset(a);
      SameFirst(less, a, b);
      SameRest(a, b);
      assert forall x :: x in a[1..] ==> x in a;
      SortedUnique(less, a[1..], b[1..]);
      assert a == [a[0]] + a[1..] && b == [b[0]] + b[1..];
    }
  }

  ghost predicate NoDuplicates<T>(s: seq<T>) {
    forall i, j :: 0 <= i < j < |s| ==> s[i] != s[j]
  }

  lemma {:induction false} OnceEach<T>(s: seq<T>, x: T)
    requires NoDuplicates(s)
    ensures multiset(s)[x] == if x in s then 1 else 0
  {
    if s != [] {
      var (init, last) := (s[..|s| - 1], s[|s| - 1]);
      OnceEach(init, x);
      assert s == init + [last];
    }
  }

  lemma CountedTwice<T>(s: seq<T>, i: nat, j: nat)
    requires i < j < |s|
    ensures s[i] == s[j] ==> multiset(s)[s[i]] >= 2
  {
    assert s == s[..i] + [s[i]] + s[i + 1..j] + [s[j]] + s[j + 1..];
  }

  lemma RearrangedNoDuplicates<T>(a: seq<T>, b: seq<T>)
    requires NoDuplicates(a) && multiset(a) == multiset(b)
    ensures NoDuplicates(b)
  {
    forall i, j | 0 <= i < j < |b| ensures b[i] != b[j] {
      OnceEach(a, b[i]);
      CountedTwice(b, i, j);
    }
  }
}
