/** The array combinators the scripts use: `map`, a `map` whose failures are
    dropped afterwards (`.map(...).filter(Boolean)`), and the duplicate removal
    of `[...new Set(xs)]`, which keeps first occurrences in insertion order. */
module Seqs {
  import opened Wrappers

  /** `xs.map(f)` */
  function Map<T, U>(xs: seq<T>, f: T -> U): (r: seq<U>)
    ensures |r| == |xs|
    ensures forall i :: 0 <= i < |xs| ==> r[i] == f(xs[i])
  {
    if xs == [] then [] else Map(xs[..|xs| - 1], f) + [f(xs[|xs| - 1])]
  }

  /** `xs.map(f).filter(Boolean)` where `f` gives `undefined` (here `None`)
      for the elements it drops. */
  function FilterMap<T, U>(xs: seq<T>, f: T -> Option<U>): (r: seq<U>)
    ensures |r| <= |xs|
  {
    if xs == [] then []
    else FilterMap(xs[..|xs| - 1], f) + Kept(f(xs[|xs| - 1]))
  }

  /** What one element contributes to a `FilterMap`. */
  function Kept<U>(o: Option<U>): (r: seq<U>)
    ensures |r| <= 1
  {
    match o
    case Some(y) => [y]
    case None => []
  }

  /** `FilterMap` works element by element: the result for `a + b` is the
      result for `a` followed by the result for `b`, so the surviving elements
      keep their relative order. */
  lemma {:induction false} FilterMapAppend<T, U>(a: seq<T>, b: seq<T>, f: T -> Option<U>)
    ensures FilterMap(a + b, f) == FilterMap(a, f) + FilterMap(b, f)
    decreases |b|
  {
    if b == [] {
      assert a + b == a;
    } else {
      var b' := b[..|b| - 1];
      assert (a + b)[..|a + b| - 1] == a + b';
      assert (a + b)[|a + b| - 1] == b[|b| - 1];
      FilterMapAppend(a, b', f);
    }
  }

  /** A single element is kept, mapped, exactly when `f` accepts it. */
  lemma FilterMapSingle<T, U>(x: T, f: T -> Option<U>)
    ensures FilterMap([x], f) == Kept(f(x))
  {
    assert [x][..0] == [];
  }

  /** Every result comes from an element of the input that `f` accepts, and
      every accepted element gives a result. */
  lemma {:induction false} FilterMapMember<T, U>(xs: seq<T>, f: T -> Option<U>, y: U)
    ensures y in FilterMap(xs, f) <==> exists i :: 0 <= i < |xs| && f(xs[i]) == Some(y)
  {
    if xs != [] {
      var xs' := xs[..|xs| - 1];
      FilterMapMember(xs', f, y);
      if y in FilterMap(xs', f) {
        var i :| 0 <= i < |xs'| && f(xs'[i]) == Some(y);
        assert xs[i] == xs'[i];
      }
      if exists i :: 0 <= i < |xs| && f(xs[i]) == Some(y) {
        var i :| 0 <= i < |xs| && f(xs[i]) == Some(y);
        if i < |xs'| { assert xs'[i] == xs[i]; }
      }
    }
  }

  lemma AppendAssoc<T>(a: seq<T>, b: seq<T>, c: seq<T>)
    ensures (a + b) + c == a + (b + c)
  {
  }

  /** One more element maps to one more image, at the end. */
  lemma MapSnoc<T, U>(xs: seq<T>, n: nat, f: T -> U)
    requires n < |xs|
    ensures Map(xs[..n + 1], f) == Map(xs[..n], f) + [f(xs[n])]
  {
    assert xs[..n + 1][..n] == xs[..n];
  }

  /** FilterMap over a prefix one element longer. */
  lemma FilterMapSnoc<T, U>(xs: seq<T>, n: nat, f: T -> Option<U>)
    requires n < |xs|
    ensures FilterMap(xs[..n + 1], f) == FilterMap(xs[..n], f) + Kept(f(xs[n]))
  {
    assert xs[..n + 1][..n] == xs[..n];
  }

  /** What a step of a map that may throw makes of one element. */
  datatype Outcome<U> = Skip | Keep(value: U) | Fail

  function Success<U>(o: Outcome<U>): Option<U> {
    match o
    case Keep(u) => Some(u)
    case _ => None
  }

  function SuccessOf<T, U>(f: T -> Outcome<U>): T -> Option<U> {
    (x: T) => Success(f(x))
  }

  /** The kept values of a filter-then-map whose map throws on the elements
      `f` marks as failing; `None` when one of them is reached. */
  function Collect<T, U>(xs: seq<T>, f: T -> Outcome<U>): (r: Option<seq<U>>)
    ensures r.None? <==> exists i :: 0 <= i < |xs| && f(xs[i]).Fail?
    ensures r.Some? ==> r.value == FilterMap(xs, SuccessOf(f))
  {
    if xs == [] then Some([])
    else
      var init := xs[..|xs| - 1];
      assert forall i :: 0 <= i < |init| ==> init[i] == xs[i];
      match Collect(init, f)
      case None => None
      case Some(done) =>
        match f(xs[|xs| - 1])
        case Skip => Some(done)
        case Fail => None
        case Keep(u) => Some(done + [u])
  }

  predicate NoDup<T(==)>(xs: seq<T>) {
    forall i, j :: 0 <= i < j < |xs| ==> xs[i] != xs[j]
  }

  /** `[...new Set(xs)]`: each distinct element once, at its first occurrence. */
  function Dedup<T(==)>(xs: seq<T>): (r: seq<T>)
    ensures NoDup(r)
    ensures forall i :: 0 <= i < |r| ==> r[i] in xs
    ensures forall i :: 0 <= i < |xs| ==> xs[i] in r
  {
    if xs == [] then []
    else
      var d := Dedup(xs[..|xs| - 1]);
      var x := xs[|xs| - 1];
      assert forall i :: 0 <= i < |xs| - 1 ==> xs[i] == xs[..|xs| - 1][i];
      if x in d then d else d + [x]
  }

  /** Membership in a `Dedup` is membership in its input. */
  lemma DedupMember<T>(xs: seq<T>, x: T)
    ensures x in Dedup(xs) <==> x in xs
  {
    var d := Dedup(xs);
    if x in d {
      var i :| 0 <= i < |d| && d[i] == x;
    }
    if x in xs {
      var i :| 0 <= i < |xs| && xs[i] == x;
    }
  }
}
