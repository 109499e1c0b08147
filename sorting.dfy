/** Sorting strings by a comparator, standing in for `Array.prototype.sort`
    with `localeCompare`. The comparator's order is locale-dependent, so it is
    a parameter `le` ("comes no later than"), required to be a total order. */
module Sorting {
  import opened Seqs

  ghost predicate TotalOrder(le: (string, string) -> bool) {
    && (forall a, b :: le(a, b) || le(b, a))
    && (forall a, b :: le(a, b) && le(b, a) ==> a == b)
    && (forall a, b, c :: le(a, b) && le(b, c) ==> le(a, c))
  }

  ghost predicate SortedBy(s: seq<string>, le: (string, string) -> bool) {
    forall i, j :: 0 <= i < j < |s| ==> le(s[i], s[j])
  }

  /** Put `x` before the first element it does not come after. */
  function Insert(x: string, s: seq<string>, le: (string, string) -> bool): (r: seq<string>)
    ensures multiset(r) == multiset(s) + multiset{x}
  {
    if s == [] then [x]
    else if le(x, s[0]) then [x] + s
    else
      assert s == [s[0]] + s[1..];
      [s[0]] + Insert(x, s[1..], le)
  }

  /** Insertion sort. */
  function Sort(s: seq<string>, le: (string, string) -> bool): (r: seq<string>)
    ensures multiset(r) == multiset(s)
  {
    if s == [] then []
    else
      assert s == [s[0]] + s[1..];
      Insert(s[0], Sort(s[1..], le), le)
  }

  lemma {:induction false} InsertSorted(x: string, s: seq<string>, le: (string, string) -> bool)
    requires TotalOrder(le)
    requires SortedBy(s, le)
    ensures SortedBy(Insert(x, s, le), le)
  {
    if s != [] && !le(x, s[0]) {
      InsertSorted(x, s[1..], le);
      var r := Insert(x, s[1..], le);
      forall k | 0 <= k < |r| ensures le(s[0], r[k]) {
        assert r[k] in multiset(r);
        assert r[k] in multiset(s[1..]) + multiset{x};
        if r[k] != x {
          assert r[k] in s[1..];
          var j :| 0 <= j < |s[1..]| && s[1..][j] == r[k];
          assert s[j + 1] == r[k];
        }
      }
    }
  }

  /** The sort's result is ordered by `le` and holds the same elements. */
  lemma {:induction false} SortSorted(s: seq<string>, le: (string, string) -> bool)
    requires TotalOrder(le)
    ensures SortedBy(Sort(s, le), le)
  {
    if s != [] {
      SortSorted(s[1..], le);
      InsertSorted(s[0], Sort(s[1..], le), le);
    }
  }

  lemma {:induction false} InsertNoDup(x: string, s: seq<string>, le: (string, string) -> bool)
    requires NoDup(s) && x !in s
    ensures NoDup(Insert(x, s, le))
  {
    if s != [] && !le(x, s[0]) {
      InsertNoDup(x, s[1..], le);
      var r := Insert(x, s[1..], le);
      assert s[0] !in multiset(s[1..]) + multiset{x};
      assert s[0] !in r by { assert s[0] !in multiset(r); }
      assert Insert(x, s, le) == [s[0]] + r;
    }
  }

  /** Sorting keeps a duplicate-free list duplicate-free. */
  lemma {:induction false} SortNoDup(s: seq<string>, le: (string, string) -> bool)
    requires NoDup(s)
    ensures NoDup(Sort(s, le))
  {
    if s != [] {
      SortNoDup(s[1..], le);
      assert s[0] !in s[1..];
      assert s[0] !in Sort(s[1..], le) by { assert s[0] !in multiset(Sort(s[1..], le)); }
      InsertNoDup(s[0], Sort(s[1..], le), le);
    }
  }

  /** Under a total order, a duplicate-free sorted arrangement of a set of
      strings is unique: it does not matter which sorting algorithm the
      runtime uses. */
  lemma {:induction false} SortedUnique(a: seq<string>, b: seq<string>, le: (string, string) -> bool)
    requires TotalOrder(le)
    requires SortedBy(a, le) && SortedBy(b, le) && NoDup(a) && NoDup(b)
    requires forall x :: x in a <==> x in b
    ensures a == b
  {
    if a != [] { assert a[0] in b; }
    if b != [] { assert b[0] in a; }
    if a != [] && b != [] {
      assert a[0] == b[0] by {
        assert a[0] in b;
        assert b[0] in a;
        var i :| 0 <= i < |b| && b[i] == a[0];
        var j :| 0 <= j < |a| && a[j] == b[0];
        assert le(b[0], b[i]);
        assert le(a[0], a[j]);
      }
      forall x ensures x in a[1..] <==> x in b[1..] {
        if x in a[1..] {
          var i :| 0 <= i < |a[1..]| && a[1..][i] == x;
          assert a[i + 1] == x && x != a[0] && x in a && x in b;
          var k :| 0 <= k < |b| && b[k] == x;
          assert b[1..][k - 1] == x;
        }
        if x in b[1..] {
          var i :| 0 <= i < |b[1..]| && b[1..][i] == x;
          assert b[i + 1] == x && x != b[0] && x in b && x in a;
          var k :| 0 <= k < |a| && a[k] == x;
          assert a[1..][k - 1] == x;
        }
      }
      SortedUnique(a[1..], b[1..], le);
      assert a == [a[0]] + a[1..] && b == [b[0]] + b[1..];
    }
  }
}
