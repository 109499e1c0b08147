/** String operations of JavaScript that the icon scripts rely on, stated on
    `seq<char>`: character classes of regular expressions, ASCII case mapping,
    `indexOf`, `startsWith`, `replace` with a string pattern, `split` on a
    one-character separator and `Array.prototype.join`. */
module Strings {
  import opened Wrappers

  /** `\d` in a regular expression without the `u` flag. */
  predicate IsDigit(c: char) { '0' <= c <= '9' }

  /** The characters `.` does not match in a regular expression without the `s` flag. */
  predicate IsLineTerminator(c: char) {
    c == '\n' || c == '\r' || c == '\U{2028}' || c == '\U{2029}'
  }

  predicate IsAsciiUpper(c: char) { 'A' <= c <= 'Z' }

  predicate IsAsciiLower(c: char) { 'a' <= c <= 'z' }

  function ToLowerChar(c: char): (r: char)
    ensures !IsAsciiUpper(r)
    ensures IsAsciiUpper(c) || r == c
  {
    if IsAsciiUpper(c) then (c as int + 32) as char else c
  }

  function ToUpperChar(c: char): (r: char)
    ensures !IsAsciiLower(r)
    ensures IsAsciiLower(c) || r == c
  {
    if IsAsciiLower(c) then (c as int - 32) as char else c
  }

  /** `String.prototype.toLowerCase`, on the ASCII letters. */
  function ToLower(s: string): (r: string)
    ensures |r| == |s|
    ensures forall i :: 0 <= i < |s| ==> r[i] == ToLowerChar(s[i])
  {
    if s == [] then [] else [ToLowerChar(s[0])] + ToLower(s[1..])
  }

  /** `/\d/.test(s)` */
  predicate HasDigit(s: string) {
    exists i :: 0 <= i < |s| && IsDigit(s[i])
  }

  predicate AllDigits(s: string) {
    forall i :: 0 <= i < |s| ==> IsDigit(s[i])
  }

  predicate HasLineTerminator(s: string) {
    exists i :: 0 <= i < |s| && IsLineTerminator(s[i])
  }

  predicate HasAsciiUpper(s: string) {
    exists i :: 0 <= i < |s| && IsAsciiUpper(s[i])
  }

  predicate StartsWith(s: string, prefix: string) {
    |prefix| <= |s| && s[..|prefix|] == prefix
  }

  predicate EndsWith(s: string, suffix: string) {
    |suffix| <= |s| && s[|s| - |suffix|..] == suffix
  }

  /** `t` occurs in `s` at position `i`. */
  predicate OccursAt(s: string, t: string, i: int) {
    0 <= i && i + |t| <= |s| && s[i..i + |t|] == t
  }

  /** `s.includes(t)`, also `s.match(/t/)` for a literal pattern `t`. */
  predicate Contains(s: string, t: string) {
    exists i :: 0 <= i <= |s| - |t| && OccursAt(s, t, i)
  }

  /** `s.indexOf(c)`, as an option: the first position of `c`. */
  function IndexOf(s: string, c: char): (r: Option<nat>)
    ensures r.Some? ==> r.value < |s| && s[r.value] == c
    ensures r.Some? ==> forall i :: 0 <= i < r.value ==> s[i] != c
    ensures r.None? <==> c !in s
  {
    if |s| == 0 then None
    else if s[0] == c then Some(0)
    else match IndexOf(s[1..], c)
      case None => None
      case Some(k) => Some(k + 1)
  }

  /** `s.indexOf(t)`, as an option: the first position where `t` occurs. */
  function FindSub(s: string, t: string, from: nat := 0): (r: Option<nat>)
    requires from <= |s|
    ensures r.Some? ==> from <= r.value && OccursAt(s, t, r.value)
    ensures r.Some? ==> forall i :: from <= i < r.value ==> !OccursAt(s, t, i)
    ensures r.None? ==> forall i :: from <= i ==> !OccursAt(s, t, i)
    decreases |s| - from
  {
    if OccursAt(s, t, from) then Some(from)
    else if from == |s| then None
    else FindSub(s, t, from + 1)
  }

  /** `s.replace(t, "")` for a string pattern `t`: only the first occurrence
      is removed, and `s` is returned unchanged when `t` does not occur. */
  function RemoveFirst(s: string, t: string): (r: string)
    ensures !Contains(s, t) ==> r == s
    ensures Contains(s, t) ==> exists i :: (OccursAt(s, t, i)
      && (forall j :: 0 <= j < i ==> !OccursAt(s, t, j)) && r == s[..i] + s[i + |t|..])
  {
    match FindSub(s, t)
    case None => s
    case Some(i) => s[..i] + s[i + |t|..]
  }

  /** `s.split(c)` for a one-character separator: the pieces between the
      occurrences of `c`, never an empty list. */
  function Split(s: string, c: char): (r: seq<string>)
    ensures |r| >= 1
    ensures forall i :: 0 <= i < |r| ==> c !in r[i]
    ensures c in s <==> |r| >= 2
    decreases |s|
  {
    match IndexOf(s, c)
    case None => [s]
    case Some(k) => [s[..k]] + Split(s[k + 1..], c)
  }

  /** `parts.join(sep)`; the empty list gives the empty string. */
  function Join(parts: seq<string>, sep: string): string
  {
    if |parts| == 0 then ""
    else if |parts| == 1 then parts[0]
    else parts[0] + sep + Join(parts[1..], sep)
  }

  function Last<T>(s: seq<T>): T
    requires |s| >= 1
  {
    s[|s| - 1]
  }

  /** The position of the first `c` in a string built as `a + [c] + b` where
      `a` has none. */
  lemma IndexOfAfter(a: string, c: char, b: string)
    requires c !in a
    ensures IndexOf(a + [c] + b, c) == Some(|a|)
  {
    var s := a + [c] + b;
    assert s[..|a|] == a;
    assert s[|a|] == c;
    IndexOfUnique(s, c, |a|);
  }

  /** A position holding `c` with no `c` before it is the one `IndexOf` finds. */
  lemma IndexOfUnique(s: string, c: char, k: nat)
    requires k < |s| && s[k] == c
    requires forall i :: 0 <= i < k ==> s[i] != c
    ensures IndexOf(s, c) == Some(k)
  {
    assert c in s;
  }

  /** The last piece of `s.split(c)` is what follows the last `c` of `s`, or
      all of `s` when it has no `c`. */
  lemma {:induction false} SplitLast(s: string, c: char)
    ensures EndsWith(s, Last(Split(s, c)))
    ensures LastAfterSeparator(s, c, Last(Split(s, c)))
    decreases |s|
  {
    match IndexOf(s, c)
    case None =>
      assert Last(Split(s, c)) == s;
      assert s[|s| - |s|..] == s;
    case Some(k) =>
      var rest := s[k + 1..];
      SplitLast(rest, c);
      var l := Last(Split(rest, c));
      assert Last(Split(s, c)) == l by {
        assert Split(s, c) == [s[..k]] + Split(rest, c);
      }
      SuffixAfterSeparator(s, c, k, l);
  }

  /** A suffix `l` of `s` shorter than `s` has a `c` just before it. */
  predicate LastAfterSeparator(s: string, c: char, l: string)
    requires |l| <= |s|
  {
    |l| < |s| ==> s[|s| - |l| - 1] == c
  }

  lemma SuffixAfterSeparator(s: string, c: char, k: nat, l: string)
    requires k < |s| && s[k] == c
    requires EndsWith(s[k + 1..], l)
    requires |l| < |s| - k - 1 ==> s[k + 1..][|s| - k - 1 - |l| - 1] == c
    ensures EndsWith(s, l)
    ensures LastAfterSeparator(s, c, l)
  {
    assert s[|s| - |l|..] == s[k + 1..][|s| - k - 1 - |l|..];
  }



  /** Splitting undoes joining, when no piece contains the separator. */
  lemma {:induction false} SplitJoin(parts: seq<string>, c: char)
    requires |parts| >= 1
    requires forall i :: 0 <= i < |parts| ==> c !in parts[i]
    ensures Split(Join(parts, [c]), c) == parts
  {
    if |parts| == 1 {
      assert IndexOf(parts[0], c) == None;
    } else {
      var rest := Join(parts[1..], [c]);
      IndexOfAfter(parts[0], c, rest);
      var s := parts[0] + [c] + rest;
      assert s[..|parts[0]|] == parts[0];
      assert s[|parts[0]| + 1..] == rest;
      SplitJoin(parts[1..], c);
      assert [parts[0]] + parts[1..] == parts;
    }
  }

  /** Joining undoes splitting. */
  lemma {:induction false} JoinSplit(s: string, c: char)
    ensures Join(Split(s, c), [c]) == s
    decreases |s|
  {
    match IndexOf(s, c)
    case None =>
    case Some(k) =>
      JoinSplit(s[k + 1..], c);
      var r := Split(s, c);
      assert r[1..] == Split(s[k + 1..], c);
      assert s == s[..k] + [c] + s[k + 1..];
  }

  /** Splitting `x + [c] + t` where `t` has no `c` gives `t` as the last piece. */
  lemma {:induction false} SplitSnoc(x: string, c: char, t: string)
    requires c !in t
    ensures Split(x + [c] + t, c) == Split(x, c) + [t]
    decreases |x|
  {
    if IndexOf(x, c).None? {
      SplitSnocFirst(x, c, t);
    } else {
      var k := IndexOf(x, c).value;
      var s := x + [c] + t;
      SplitSnocLater(x, c, t, k);
      SplitSnoc(x[k + 1..], c, t);
    }
  }

  lemma SplitSnocFirst(x: string, c: char, t: string)
    requires c !in t && c !in x
    ensures Split(x + [c] + t, c) == Split(x, c) + [t]
  {
    var s := x + [c] + t;
    IndexOfAfter(x, c, t);
    assert s[..|x|] == x;
    assert s[|x| + 1..] == t;
    assert Split(t, c) == [t];
    assert Split(x, c) == [x];
  }

  lemma SplitSnocLater(x: string, c: char, t: string, k: nat)
    requires IndexOf(x, c) == Some(k)
    ensures Split(x + [c] + t, c) == [x[..k]] + Split(x[k + 1..] + [c] + t, c)
    ensures Split(x, c) == [x[..k]] + Split(x[k + 1..], c)
  {
    var s := x + [c] + t;
    assert s[k] == c;
    assert forall i :: 0 <= i < k ==> s[i] == x[i];
    IndexOfUnique(s, c, k);
    assert s[..k] == x[..k];
    assert s[k + 1..] == x[k + 1..] + [c] + t;
  }

  /** The first piece of a split is the text before the first separator, and
      the other pieces joined back give the text after it. */
  lemma SplitAtFirst(s: string, c: char, k: nat)
    requires IndexOf(s, c) == Some(k)
    ensures Split(s, c)[0] == s[..k]
    ensures Join(Split(s, c)[1..], [c]) == s[k + 1..]
  {
    JoinSplit(s[k + 1..], c);
    assert Split(s, c)[1..] == Split(s[k + 1..], c);
  }

  /** `Join` over a list extended at the end. */
  lemma {:induction false} JoinSnoc(parts: seq<string>, x: string, sep: string)
    requires |parts| >= 1
    ensures Join(parts + [x], sep) == Join(parts, sep) + sep + x
  {
    if |parts| == 1 {
      assert (parts + [x])[1..] == [x];
    } else {
      assert (parts + [x])[1..] == parts[1..] + [x];
      JoinSnoc(parts[1..], x, sep);
    }
  }

  /** Joining two non-empty lists: the separator appears once between them. */
  lemma {:induction false} JoinAppend(a: seq<string>, b: seq<string>, sep: string)
    requires |a| >= 1 && |b| >= 1
    ensures Join(a + b, sep) == Join(a, sep) + sep + Join(b, sep)
  {
    if |a| == 1 {
      assert (a + b)[1..] == b;
    } else {
      assert (a + b)[1..] == a[1..] + b;
      JoinAppend(a[1..], b, sep);
    }
  }

  lemma JoinTwo(a: string, b: string, sep: string)
    ensures Join([a, b], sep) == a + sep + b
  {
    assert [a, b][1..] == [b];
  }

  lemma StartsWithConcat(p: string, q: string)
    ensures StartsWith(p + q, p)
  {
    assert (p + q)[..|p|] == p;
  }

  lemma StartsWithAppend(s: string, p: string, t: string)
    requires StartsWith(s, p)
    ensures StartsWith(s + t, p)
  {
    assert (s + t)[..|p|] == s[..|p|];
  }

  /** Joining `a + [line] + b`: the text of `line` starts right after the
      joined `a` and one separator (or at 0 when `a` is empty). */
  lemma JoinAround(a: seq<string>, line: string, b: seq<string>, sep: string)
    ensures Join(a + [line] + b, sep)
         == (if a == [] then "" else Join(a, sep) + sep) + line + (if b == [] then "" else sep + Join(b, sep))
  {
    if a == [] {
      assert a + [line] + b == [line] + b;
      if b != [] { JoinAppend([line], b, sep); }
    } else {
      if b == [] {
        assert a + [line] + b == a + [line];
        JoinSnoc(a, line, sep);
      } else {
        assert a + [line] + b == a + ([line] + b);
        JoinAppend(a, [line] + b, sep);
        JoinAppend([line], b, sep);
      }
    }
  }

  /** A character that appears in no piece and not in the separator does not
      appear in the joined text. */
  lemma {:induction false} JoinAvoids(parts: seq<string>, sep: string, c: char)
    requires c !in sep
    requires forall i :: 0 <= i < |parts| ==> c !in parts[i]
    ensures c !in Join(parts, sep)
  {
    if |parts| > 1 {
      JoinAvoids(parts[1..], sep, c);
    }
  }
}
