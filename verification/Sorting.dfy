/** Orders given by a three-way comparison, and stable sorting by one. */
module Sorting {

  /** The comparison of two texts, as strings.Compare: -1, 0 or 1. */
  function Compare(a: string, b: string): (c: int)
    ensures -1 <= c <= 1
  {
    if a == "" then (if b == "" then 0 else -1)
    else if b == "" then 1
    else if a[0] < b[0] then -1
    else if a[0] > b[0] then 1
    else Compare(a[1..], b[1..])
  }

  lemma {:induction false} CompareZero(a: string, b: string)
    ensures Compare(a, b) == 0 <==> a == b
  {
    if a != "" && b != "" {
      CompareZero(a[1..], b[1..]);
      assert a == [a[0]] + a[1..] && b == [b[0]] + b[1..];
    }
  }

  lemma {:induction false} CompareFlips(a: string, b: string)
    ensures Compare(b, a) == -Compare(a, b)
  {
    if a != "" && b != "" { CompareFlips(a[1..], b[1..]); }
  }

  /** a comes first: it is the shorter of two texts that agree as far as it goes, or has the smaller character where they part. */
  predicate Precedes(a: string, b: string, k: nat) {
    k <= |a| && k < |b| && a[..k] == b[..k] && (k == |a| || a[k] < b[k])
  }

  /** The order of texts is the order of dictionaries. */
  lemma {:induction false} CompareMeans(a: string, b: string)
    ensures Compare(a, b) < 0 <==> exists k: nat :: Precedes(a, b, k)
  {
    if a == "" || b == "" {
      if b != "" { assert Precedes(a, b, 0); }
    } else if a[0] != b[0] {
      if a[0] < b[0] { assert Precedes(a, b, 0); }
      if k: nat :| Precedes(a, b, k) { assert k > 0 ==> a[..k][0] == b[..k][0]; }
    } else {
      CompareMeans(a[1..], b[1..]);
      if k: nat :| Precedes(a[1..], b[1..], k) {
        assert a[..k + 1] == [a[0]] + a[1..][..k] && b[..k + 1] == [b[0]] + b[1..][..k];
        assert Precedes(a, b, k + 1);
      }
      if k: nat :| Precedes(a, b, k) {
        assert k > 0;
        assert a[1..][..k - 1] == a[..k][1..] && b[1..][..k - 1] == b[..k][1..];
        assert Precedes(a[1..], b[1..], k - 1);
      }
    }
  }

  lemma {:induction false} CompareTransitive(a: string, b: string, c: string)
    requires Compare(a, b) <= 0 && Compare(b, c) <= 0
    ensures Compare(a, c) <= 0
    ensures Compare(a, b) < 0 || Compare(b, c) < 0 ==> Compare(a, c) < 0
  {
    if a != "" && b != "" && c != "" {
      if a[0] == b[0] && b[0] == c[0] { CompareTransitive(a[1..], b[1..], c[1..]); }
    }
  }

  function CompareInt(a: int, b: int): int { if a < b then -1 else if a > b then 1 else 0 }

  /** Any two elements compare, and the comparison is transitive. */
  ghost predicate Ordered<T(!new)>(cmp: (T, T) -> int) {
    (forall a, b :: cmp(a, b) <= 0 || cmp(b, a) <= 0) &&
    (forall a, b, c :: cmp(a, b) <= 0 && cmp(b, c) <= 0 ==> cmp(a, c) <= 0)
  }

  lemma Totally<T(!new)>(cmp: (T, T) -> int, a: T, b: T)
    requires Ordered(cmp)
    ensures cmp(a, b) <= 0 || cmp(b, a) <= 0
  {
  }

  lemma Transitively<T(!new)>(cmp: (T, T) -> int, a: T, b: T, c: T)
    requires Ordered(cmp) && cmp(a, b) <= 0 && cmp(b, c) <= 0
    ensures cmp(a, c) <= 0
  {
  }

  /** x comes before nothing it should come after. */
  ghost predicate Leads<T(!new)>(x: T, s: seq<T>, cmp: (T, T) -> int) { forall y :: y in s ==> cmp(x, y) <= 0 }

  ghost predicate Sorted<T(!new)>(s: seq<T>, cmp: (T, T) -> int) {
    s == [] || (Leads(s[0], s[1..], cmp) && Sorted(s[1..], cmp))
  }

  /** Every element of a sorted list comes no later than the ones after it. */
  lemma {:induction false} SortedAt<T(!new)>(s: seq<T>, cmp: (T, T) -> int, i: nat, j: nat)
    requires Sorted(s, cmp) && i < j < |s|
    ensures cmp(s[i], s[j]) <= 0
  {
    if i == 0 {
      assert s[1..][j - 1] in s[1..];
    } else {
      SortedAt(s[1..], cmp, i - 1, j - 1);
    }
  }

  /** x before the first element it does not come after. */
  function Insert<T>(x: T, s: seq<T>, cmp: (T, T) -> int): (r: seq<T>)
    ensures multiset(r) == multiset(s) + multiset{x}
  {
    if s == [] then [x]
    else if cmp(x, s[0]) <= 0 then [x] + s
    else
      var r := Insert(x, s[1..], cmp);
      assert s == [s[0]] + s[1..];
      [s[0]] + r
  }

  function Sort<T>(s: seq<T>, cmp: (T, T) -> int): (r: seq<T>)
    ensures multiset(r) == multiset(s) && |r| == |s|
  {
    if s == [] then []
    else
      assert s == [s[0]] + s[1..];
      var r := Insert(s[0], Sort(s[1..], cmp), cmp);
      assert |multiset(r)| == |r| && |multiset(s)| == |s|;
      r
  }

  lemma InsertIn<T(!new)>(x: T, s: seq<T>, cmp: (T, T) -> int, y: T)
    ensures y in Insert(x, s, cmp) <==> y == x || y in s
  {
    assert y in Insert(x, s, cmp) <==> y in multiset(Insert(x, s, cmp));
    assert y in s <==> y in multiset(s);
  }

  lemma {:induction false} InsertSorted<T(!new)>(x: T, s: seq<T>, cmp: (T, T) -> int)
    requires Ordered(cmp) && Sorted(s, cmp)
    ensures Sorted(Insert(x, s, cmp), cmp)
  {
    hide Ordered;
    if s == [] {
      assert [x][1..] == [];
    } else if cmp(x, s[0]) <= 0 {
      forall y | y in s ensures cmp(x, y) <= 0 {
        if y != s[0] {
          assert s == [s[0]] + s[1..];
          Transitively(cmp, x, s[0], y);
        }
      }
      assert ([x] + s)[1..] == s;
    } else {
      Totally(cmp, x, s[0]);
      InsertSorted(x, s[1..], cmp);
      var r := Insert(x, s[1..], cmp);
      forall y | y in r ensures cmp(s[0], y) <= 0 { InsertIn(x, s[1..], cmp, y); }
      assert ([s[0]] + r)[1..] == r;
    }
  }

  lemma {:induction false} SortSorted<T(!new)>(s: seq<T>, cmp: (T, T) -> int)
    requires Ordered(cmp)
    ensures Sorted(Sort(s, cmp), cmp)
  {
    if s != [] {
      SortSorted(s[1..], cmp);
      InsertSorted(s[0], Sort(s[1..], cmp), cmp);
    }
  }

  lemma LeadsAll<T(!new)>(s: seq<T>, cmp: (T, T) -> int, y: T)
    requires Ordered(cmp) && Sorted(s, cmp) && y in s
    ensures cmp(s[0], y) <= 0
  {
    assert s == [s[0]] + s[1..];
    if y == s[0] { Totally(cmp, y, y); }
  }

  lemma TailOf<T>(a: seq<T>)
    requires a != []
    ensures a == [a[0]] + a[1..] && multiset(a[1..]) == multiset(a) - multiset{a[0]} && forall x :: x in a[1..] ==> x in a
  {
    assert a == [a[0]] + a[1..];
  }

  /** Two sorted lists of the same elements are the same list, when only equal elements compare equal. */
  lemma {:induction false} SortedUnique<T(!new)>(a: seq<T>, b: seq<T>, cmp: (T, T) -> int)
    requires Ordered(cmp) && Sorted(a, cmp) && Sorted(b, cmp) && multiset(a) == multiset(b)
    requires forall x, y :: x in a && y in a && cmp(x, y) <= 0 && cmp(y, x) <= 0 ==> x == y
    ensures a == b
  {
    hide Ordered, Leads;
    assert |multiset(a)| == |a| && |multiset(b)| == |b|;
    if a != [] {
      assert a[0] in multiset(b) && b[0] in multiset(a);
      LeadsAll(a, cmp, b[0]);
      LeadsAll(b, cmp, a[0]);
      assert a[0] == b[0];
      TailOf(a);
      TailOf(b);
      SortedUnique(a[1..], b[1..], cmp);
    }
  }

  /** An element at two places counts twice. */
  lemma Twice<T>(s: seq<T>, i: nat, j: nat)
    requires i < j < |s| && s[i] == s[j]
    ensures multiset(s)[s[i]] >= 2
  {
    assert s == s[..j] + s[j..];
    assert s[..j][i] == s[i] && s[j..][0] == s[j];
  }
}
