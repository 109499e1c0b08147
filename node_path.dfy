/** The three functions of Node's POSIX `path` module the scripts call:
    `dirname`, `basename` (without a suffix argument) and the `name` field of
    `parse`. Each follows Node's right-to-left scan over the path. */
module NodePath {
  import opened Wrappers
  import opened Strings

  /** The scan of `path.dirname`, from position `i` down to 1: skip the
      trailing slashes, then the last segment, and stop at the slash before it.
      -1 when there is no such slash. */
  function DirnameEnd(p: string, i: int, matchedSlash: bool): (r: int)
    requires i < |p|
    ensures r == -1 || 1 <= r <= i
    decreases i
  {
    if i < 1 then -1
    else if p[i] == '/' then (if !matchedSlash then i else DirnameEnd(p, i - 1, true))
    else DirnameEnd(p, i - 1, false)
  }

  /** `path.dirname(p)` */
  function Dirname(p: string): string
  {
    if |p| == 0 then "."
    else
      var end := DirnameEnd(p, |p| - 1, true);
      if end == -1 then (if p[0] == '/' then "/" else ".")
      else if p[0] == '/' && end == 1 then "//"
      else p[..end]
  }

  /** The scan of `path.basename`, from position `i` down to 0: `end` is -1
      until the first character that is not a slash has been seen. Gives the
      start and the end of the last segment. */
  function BasenameBounds(p: string, i: int, end: int): (r: (int, int))
    requires -1 <= i < |p|
    requires end == -1 || i < end <= |p|
    ensures r.1 == -1 || 0 <= r.0 <= r.1 <= |p|
    ensures end != -1 ==> r.1 == end
    decreases i + 1
  {
    if i < 0 then (0, end)
    else if p[i] == '/' then (if end != -1 then (i + 1, end) else BasenameBounds(p, i - 1, end))
    else BasenameBounds(p, i - 1, if end == -1 then i + 1 else end)
  }

  /** `path.basename(p)` */
  function Basename(p: string): (r: string)
  {
    var (start, end) := BasenameBounds(p, |p| - 1, -1);
    if end == -1 then "" else p[start..end]
  }

  /** The last position of `c` in `s`. */
  function LastIndexOf(s: string, c: char): (r: Option<nat>)
    ensures r.Some? ==> r.value < |s| && s[r.value] == c
    ensures r.Some? ==> forall i :: r.value < i < |s| ==> s[i] != c
    ensures r.None? <==> c !in s
  {
    if |s| == 0 then None
    else if s[|s| - 1] == c then Some(|s| - 1)
    else
      assert forall i :: 0 <= i < |s| - 1 ==> s[..|s| - 1][i] == s[i];
      LastIndexOf(s[..|s| - 1], c)
  }

  /** The `name` that `path.parse` gives for a last segment `base`: the
      segment without its extension. The extension starts at the last dot,
      except when that dot is the segment's first character and when the
      segment is `..`. */
  function ParseName(base: string): string
  {
    if base == ".." then base
    else match LastIndexOf(base, '.')
      case Some(k) => if k > 0 then base[..k] else base
      case None => base
  }

  // What these scans give on the paths the scripts see.

  lemma {:induction false} DirnameEndInSegment(p: string, d: nat, i: int, m: bool)
    requires d < i < |p| && p[d] == '/'
    requires forall t :: d < t < |p| ==> p[t] != '/'
    requires d >= 1
    requires !m || i == |p| - 1
    ensures DirnameEnd(p, i, m) == d
    decreases i
  {
    if i - 1 > d {
      DirnameEndInSegment(p, d, i - 1, false);
    }
  }

  /** The directory of `d + "/" + b`, for a last segment `b` that is not
      empty and has no slash, is `d`, unless `d` is empty or the root. */
  lemma DirnameOfChild(d: string, b: string)
    requires d != "" && d != "/"
    requires b != "" && '/' !in b
    ensures Dirname(d + "/" + b) == d
  {
    var p := d + "/" + b;
    assert p[|d|] == '/';
    forall t | |d| < t < |p| ensures p[t] != '/' {
      assert p[t] == b[t - |d| - 1];
    }
    if |d| >= 1 {
      DirnameEndInSegment(p, |d|, |p| - 1, true);
      assert p[..|d|] == d;
      if |d| == 1 { assert p[0] == d[0]; }
    }
  }

  lemma {:induction false} BasenameInSegment(p: string, d: int, i: int, end: int)
    requires -1 <= d < i < |p| && (d == -1 || p[d] == '/')
    requires forall t :: d < t < |p| ==> p[t] != '/'
    requires end == -1 <==> i == |p| - 1
    requires end != -1 ==> end == |p|
    ensures BasenameBounds(p, i, end) == (d + 1, |p|)
    decreases i
  {
    if i - 1 > d {
      BasenameInSegment(p, d, i - 1, |p|);
    }
  }

  /** The last segment of `d + "/" + b`, for `b` not empty and without a slash,
      is `b`. */
  lemma BasenameOfChild(d: string, b: string)
    requires b != "" && '/' !in b
    ensures Basename(d + "/" + b) == b
  {
    var p := d + "/" + b;
    assert p[|d|] == '/';
    forall t | |d| < t < |p| ensures p[t] != '/' {
      assert p[t] == b[t - |d| - 1];
    }
    BasenameInSegment(p, |d|, |p| - 1, -1);
    assert p[|d| + 1..] == b;
  }

  /** `path.basename` never contains a slash. */
  lemma {:induction false} BasenameBoundsNoSlash(p: string, i: int, end: int)
    requires -1 <= i < |p|
    requires end == -1 || i < end <= |p|
    requires end != -1 ==> forall t :: i < t < end ==> p[t] != '/'
    ensures var (s, e) := BasenameBounds(p, i, end); e != -1 ==> forall t :: s <= t < e ==> p[t] != '/'
    decreases i + 1
  {
    if i >= 0 {
      if p[i] == '/' {
        if end == -1 { BasenameBoundsNoSlash(p, i - 1, end); }
      } else {
        BasenameBoundsNoSlash(p, i - 1, if end == -1 then i + 1 else end);
      }
    }
  }

  lemma BasenameNoSlash(p: string)
    ensures '/' !in Basename(p)
  {
    BasenameBoundsNoSlash(p, |p| - 1, -1);
    var (s, e) := BasenameBounds(p, |p| - 1, -1);
    if e != -1 {
      var b := p[s..e];
      forall t | 0 <= t < |b| ensures b[t] != '/' { assert b[t] == p[s + t]; }
    }
  }

  /** A file `stem + ".svg"` has the name `stem`, for a non-empty stem. */
  lemma ParseNameSvg(stem: string)
    requires stem != ""
    ensures ParseName(stem + ".svg") == stem
  {
    var base := stem + ".svg";
    assert base[|stem|] == '.';
    assert base[..|stem|] == stem;
    forall i | |stem| < i < |base| ensures base[i] != '.' {
      assert base[i] == "svg"[i - |stem| - 1];
    }
    assert LastIndexOf(base, '.') == Some(|stem|);
  }
}
