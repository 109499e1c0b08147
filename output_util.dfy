/** scripts/output/util.js: the path regex that recovers an icon's size and
    name from its file path, the naming rules for generated modules, the
    attribute rendering every emitter shares, and `getSVGs`, which loads the
    optimised icons and drops the ones that fail. */
module OutputUtil {
  import opened Wrappers
  import opened Strings
  import opened Seqs

  /** One attribute of the root `<svg>` element. */
  datatype Attr = Attr(name: string, value: string)

  /** The parsed SVG: the root element's attributes in document order and its
      inner markup, both as the DOM library reports them. */
  datatype Svg = Svg(attrs: seq<Attr>, html: string)

  /** A file: its path and its text. */
  datatype TextFile = TextFile(path: string, content: string)

  /** The `groups` of a successful match of the path regex. */
  datatype PathKey = PathKey(size: string, name: string)

  /** What `getNames` derives from a key. */
  datatype IconNames = IconNames(filename: string, exportName: string)

  /** One element of the array `getSVGs` returns. */
  datatype IconEntry = IconEntry(svg: Svg, name: string, size: string, filename: string, exportName: string)

  /** What the emitters push to their `icons` array for each module written. */
  datatype IconExport = IconExport(exportName: string, filename: string)

  function ExportOf(e: IconEntry): IconExport {
    IconExport(e.exportName, e.filename)
  }

  // ---------------------------------------------------------------------
  // The path regex /(?<size>\d+)\/(?<name>.*).svg/ (util.js:9, also
  // generateElements.js:7 and generateReact.js:7). Without the `s` flag `.`
  // matches any character except a line terminator; the `.` before `svg` is
  // such a character too, not necessarily a dot.

  /** The digit run `s[i..j]` followed by a slash at `j`, then a name
      `s[j+1..k]` and one more character at `k`, then `svg` at `k+1`. */
  ghost predicate MatchesAt(s: string, i: int, j: int, k: int) {
    && 0 <= i < j < |s|
    && (forall t :: i <= t < j ==> IsDigit(s[t]))
    && s[j] == '/'
    && NameFits(s, j, k)
  }

  /** `(?<name>.*).svg` matches after the slash at `j`, with the name ending
      at `k`: no line terminator in `s[j+1..k+1]`, then `svg`. */
  ghost predicate NameFits(s: string, j: int, k: int) {
    && 0 <= j < k
    && SvgAfter(s, k)
    && (forall t :: j < t <= k ==> !IsLineTerminator(s[t]))
  }

  predicate SvgAfter(s: string, k: int) {
    0 <= k && k + 4 <= |s| && s[k + 1] == 's' && s[k + 2] == 'v' && s[k + 3] == 'g'
  }

  /** The end of the run of digits that starts at `i`. */
  function DigitRunEnd(s: string, i: nat): (j: nat)
    requires i <= |s|
    ensures i <= j <= |s|
    ensures forall t :: i <= t < j ==> IsDigit(s[t])
    ensures j == |s| || !IsDigit(s[j])
    decreases |s| - i
  {
    if i < |s| && IsDigit(s[i]) then DigitRunEnd(s, i + 1) else i
  }

  /** The first line terminator at or after `p`, or the end of `s`. */
  function LineEnd(s: string, p: nat): (q: nat)
    requires p <= |s|
    ensures p <= q <= |s|
    ensures forall t :: p <= t < q ==> !IsLineTerminator(s[t])
    ensures q == |s| || IsLineTerminator(s[q])
    decreases |s| - p
  {
    if p < |s| && !IsLineTerminator(s[p]) then LineEnd(s, p + 1) else p
  }

  /** The last position `t` in `[p, k]` followed by `svg`. */
  function LastSvg(s: string, p: nat, k: int): (r: Option<nat>)
    ensures r.Some? ==> p <= r.value <= k && SvgAfter(s, r.value)
    ensures r.Some? ==> forall t :: r.value < t <= k ==> !SvgAfter(s, t)
    ensures r.None? ==> forall t :: p <= t <= k ==> !SvgAfter(s, t)
    decreases if k < p then 0 else k - p + 1
  {
    if k < p then None
    else if SvgAfter(s, k) then Some(k)
    else LastSvg(s, p, k - 1)
  }

  /** Where the greedy `.*` of the name ends after the slash at `j`: the
      longest name after which a character and `svg` follow on the same line. */
  function NameEnd(s: string, j: nat): (r: Option<nat>)
    ensures r.Some? ==> NameFits(s, j, r.value)
    ensures r.Some? ==> forall k :: r.value < k ==> !NameFits(s, j, k)
    ensures r.None? ==> forall k :: !NameFits(s, j, k)
  {
    if j + 1 > |s| then None
    else
      var q := LineEnd(s, j + 1);
      assert forall k :: NameFits(s, j, k) ==> k < q;
      LastSvg(s, j + 1, q - 1)
  }

  /** A match that starts at `i` uses the whole digit run from `i`. */
  lemma MatchUsesWholeRun(s: string, i: nat, j: int, k: int)
    requires i <= |s|
    requires MatchesAt(s, i, j, k)
    ensures j == DigitRunEnd(s, i)
  {
  }

  /** The regex engine's search: try each start position from `i` on, and
      take the first one where the pattern matches. Gives the start of the
      size, the slash after it, and the character before `svg`. */
  function MatchFrom(s: string, i: nat): (r: Option<(nat, nat, nat)>)
    requires i <= |s|
    ensures r.Some? ==> i <= r.value.0 && MatchesAt(s, r.value.0, r.value.1, r.value.2)
    ensures r.Some? ==> forall i', j', k' :: i <= i' < r.value.0 ==> !MatchesAt(s, i', j', k')
    ensures r.Some? ==> forall k' :: r.value.2 < k' ==> !NameFits(s, r.value.1, k')
    ensures r.None? ==> forall i', j', k' :: i <= i' ==> !MatchesAt(s, i', j', k')
    decreases |s| - i
  {
    if i == |s| then None
    else
      var j := DigitRunEnd(s, i);
      assert forall j', k' :: MatchesAt(s, i, j', k') ==> j' == j;
      if j > i && j < |s| && s[j] == '/' then
        match NameEnd(s, j)
        case Some(k) => Some((i, j, k))
        case None => MatchFrom(s, i + 1)
      else MatchFrom(s, i + 1)
  }

  /** `getNameAndSize(filepath)`: the named groups of the first match, or
      `None` where `filepath.match(pathRegex)` is `null` and `.groups` throws.
      The groups are those of the leftmost match, with the greedy name, as
      `MatchFrom` finds it. */
  function GetNameAndSize(path: string): (r: Option<PathKey>)
    ensures r.Some? ==> r.value.size != [] && AllDigits(r.value.size)
    ensures r.Some? ==> !HasLineTerminator(r.value.name)
    ensures r.Some? <==> MatchFrom(path, 0).Some?
    ensures r.Some? ==> var (i, j, k) := MatchFrom(path, 0).value; r.value == PathKey(path[i..j], path[j + 1..k])
  {
    match MatchFrom(path, 0)
    case None => None
    case Some((i, j, k)) =>
      var name := path[j + 1..k];
      assert forall t :: 0 <= t < |name| ==> name[t] == path[j + 1 + t];
      Some(PathKey(path[i..j], name))
  }

  /** `/srv/v2/raw/16/a.svg` matches at `2/`, not at `16/`: the size is `2`
      and the name is `raw/16/a`. */
  lemma GetNameAndSizeLeftmost()
    ensures GetNameAndSize("/srv/v2/raw/16/a.svg") == Some(PathKey("2", "raw/16/a"))
  {
    LeftmostParts("/srv/v", "raw/16/a");
    GetNameAndSizeOfIconPath("/srv/v", "2", "raw/16/a");
  }

  lemma LeftmostParts(prefix: string, name: string)
    requires prefix == "/srv/v" && name == "raw/16/a"
    ensures NoDigitSlash(prefix) && !EndsWithDigit(prefix) && !HasLineTerminator(name)
    ensures prefix + "2" + "/" + name + ".svg" == "/srv/v2/raw/16/a.svg"
  {
  }



  /** The regex fails exactly when no position of the path starts a digit run
      followed by a slash, a name and `?svg` on the same line. */
  lemma GetNameAndSizeFails(path: string)
    ensures GetNameAndSize(path).None? <==> forall i, j, k :: !MatchesAt(path, i, j, k)
  {
    if GetNameAndSize(path).Some? {
      var (i, j, k) := MatchFrom(path, 0).value;
      assert MatchesAt(path, i, j, k);
    }
  }

  /** No position of `p` holds a digit followed by a slash. */
  predicate NoDigitSlash(p: string) {
    forall t :: 0 < t < |p| ==> !(IsDigit(p[t - 1]) && p[t] == '/')
  }

  predicate EndsWithDigit(p: string) {
    |p| > 0 && IsDigit(p[|p| - 1])
  }

  /** No match can start inside a prefix `p` that holds no digit followed by
      a slash and does not end with a digit, when a digit follows it. */
  lemma NoMatchInPrefix(p: string, rest: string)
    requires NoDigitSlash(p) && !EndsWithDigit(p)
    requires |rest| > 0 && IsDigit(rest[0])
    ensures forall i, j, k :: 0 <= i < |p| ==> !MatchesAt(p + rest, i, j, k)
  {
    var s := p + rest;
    forall i, j, k | 0 <= i < |p| ensures !MatchesAt(s, i, j, k) {
      if i < j < |p| {
        assert s[j - 1] == p[j - 1] && s[j] == p[j];
      } else if j == |p| {
        assert s[j] == rest[0];
      } else if j > |p| {
        assert s[|p| - 1] == p[|p| - 1];
      }
    }
  }

  /** For a path `prefix + size + "/" + name + ".svg"`, where `size` is a run
      of digits, `name` stays on one line and the prefix holds no earlier digit
      run followed by a slash, the regex gives exactly `size` and `name`. */
  lemma GetNameAndSizeOfIconPath(prefix: string, size: string, name: string)
    requires NoDigitSlash(prefix) && !EndsWithDigit(prefix)
    requires size != [] && AllDigits(size)
    requires !HasLineTerminator(name)
    ensures GetNameAndSize(prefix + size + "/" + name + ".svg") == Some(PathKey(size, name))
  {
    var s := prefix + size + "/" + name + ".svg";
    var i0, j0 := |prefix|, |prefix| + |size|;
    var k0 := j0 + 1 + |name|;
    IconPathMatchesAt(prefix, size, name);
    NoMatchInPrefix(prefix, size + "/" + name + ".svg");
    assert s == prefix + (size + "/" + name + ".svg");
    var r := MatchFrom(s, 0);
    assert r.Some?;
    var (i, j, k) := r.value;
    assert i == i0;
    MatchUsesWholeRun(s, i0, j0, k0);
    MatchUsesWholeRun(s, i, j, k);
    assert j == j0;
    assert k == k0;
    assert s[i0..j0] == size;
    assert s[j0 + 1..k0] == name;
  }




  /** The path matches at the size directory, with the name up to `.svg`. */
  lemma IconPathMatchesAt(prefix: string, size: string, name: string)
    requires size != [] && AllDigits(size)
    requires !HasLineTerminator(name)
    ensures var j0 := |prefix| + |size|;
      MatchesAt(prefix + size + "/" + name + ".svg", |prefix|, j0, j0 + 1 + |name|)
      && |prefix + size + "/" + name + ".svg"| == j0 + 1 + |name| + 4
  {
    var s := prefix + size + "/" + name + ".svg";
    var i0, j0 := |prefix|, |prefix| + |size|;
    var k0 := j0 + 1 + |name|;
    assert forall t :: i0 <= t < j0 ==> s[t] == size[t - i0];
    assert forall t :: j0 < t < k0 ==> s[t] == name[t - j0 - 1];
    assert s[j0] == '/' && s[k0] == '.' && s[k0 + 1] == 's' && s[k0 + 2] == 'v' && s[k0 + 3] == 'g';
  }

  // ---------------------------------------------------------------------
  // Names derived from a key (util.js:11-16).

  /** `capitalize`: the first character upper-cased, the rest unchanged. */
  function Capitalize(s: string): (r: string)
    ensures |r| == |s|
    ensures s == [] ==> r == []
    ensures s != [] ==> r[0] == ToUpperChar(s[0]) && r[1..] == s[1..]
  {
    if s == [] then [] else [ToUpperChar(s[0])] + s[1..]
  }

  /** `pascalCase`, with the `camelcase` package as the parameter `camel`. */
  function PascalCase(s: string, camel: string -> string): string
  {
    Capitalize(camel(s))
  }

  /** `getNames`: the module's file name and its exported identifier. */
  function GetNames(key: PathKey, camel: string -> string): (r: IconNames)
  {
    IconNames(key.name + "-" + key.size + ".js", PascalCase("icon-" + key.name + key.size, camel))
  }

  /** The file name `<name>-<size>.js` splits back at its last hyphen: the
      text before it is the name and the text up to `.js` is the size, since
      a size holds no hyphen. */
  lemma FilenameKey(key: PathKey, camel: string -> string)
    requires AllDigits(key.size)
    ensures var f := GetNames(key, camel).filename;
      var p := |key.name|;
      && |f| == p + 1 + |key.size| + 3 && f[p] == '-'
      && (forall q :: p < q < |f| ==> f[q] != '-')
      && f[..p] == key.name && f[p + 1..|f| - 3] == key.size && f[|f| - 3..] == ".js"
  {
    var f := GetNames(key, camel).filename;
    var p := |key.name|;
    assert forall q :: p < q < p + 1 + |key.size| ==> f[q] == key.size[q - p - 1];
    assert f[p + 1 + |key.size|..] == ".js";
  }

  /** Paths with different keys never share a module file. */
  lemma FilenamesDistinct(a: PathKey, b: PathKey, camel: string -> string)
    requires AllDigits(a.size) && AllDigits(b.size)
    requires GetNames(a, camel).filename == GetNames(b, camel).filename
    ensures a == b
  {
    var f := GetNames(a, camel).filename;
    FilenameKey(a, camel);
    FilenameKey(b, camel);
    var pa, pb := |a.name|, |b.name|;
    assert f[pa] == '-' && f[pb] == '-';
    assert pa == pb;
  }


  // ---------------------------------------------------------------------
  // Attribute rendering, the same in every emitter
  // (elements.js:12, react.js:12, vue.js:12, generateElements.js:19-21,
  // generateReact.js:19-21).

  /** `attr.name + ': ' + "'" + attr.value + "'"` */
  function AttrPair(a: Attr): string
  {
    a.name + ": '" + a.value + "'"
  }

  /** The rendered attributes, one per attribute, in document order. */
  function AttrPairs(attrs: seq<Attr>): seq<string>
  {
    Map(attrs, AttrPair)
  }

  /** `attrs.join(', ')` */
  function AttrList(attrs: seq<Attr>): string
  {
    Join(AttrPairs(attrs), ", ")
  }

  /** Adding an attribute at the end adds its pair, after a comma, at the end. */
  lemma AttrListSnoc(attrs: seq<Attr>, a: Attr)
    ensures AttrList(attrs + [a]) == if attrs == [] then AttrPair(a) else AttrList(attrs) + ", " + AttrPair(a)
  {
    var ps := AttrPairs(attrs + [a]);
    assert ps == AttrPairs(attrs) + [AttrPair(a)];
    if attrs == [] {
      assert ps == [AttrPair(a)];
    } else {
      JoinSnoc(AttrPairs(attrs), AttrPair(a), ", ");
    }
  }

  // ---------------------------------------------------------------------
  // getSVGs (util.js:19-26).

  /** One file of `getSVGs`: the key from the path, then the parsed SVG
      (`parse` stands for the DOM library; `None` when there is no `<svg>`
      element and `el.attributes` throws). A throw is caught and the file
      dropped. */
  function LoadIcon(f: TextFile, parse: string -> Option<Svg>, camel: string -> string): (r: Option<IconEntry>)
    ensures GetNameAndSize(f.path).None? ==> r.None?
    ensures r.Some? ==> GetNameAndSize(f.path) == Some(PathKey(r.value.size, r.value.name))
    ensures r.Some? ==> parse(f.content) == Some(r.value.svg)
    ensures r.Some? ==> GetNames(PathKey(r.value.size, r.value.name), camel) == IconNames(r.value.filename, r.value.exportName)
  {
    match GetNameAndSize(f.path)
    case None => None
    case Some(key) =>
      match parse(f.content)
      case None => None
      case Some(svg) =>
        var n := GetNames(key, camel);
        Some(IconEntry(svg, key.name, key.size, n.filename, n.exportName))
  }

  /** `getSVGs()` over the files the glob found, in glob order. */
  function GetSvgs(files: seq<TextFile>, parse: string -> Option<Svg>, camel: string -> string): (r: seq<IconEntry>)
    ensures |r| <= |files|
  {
    FilterMap(files, (f: TextFile) => LoadIcon(f, parse, camel))
  }

  /** `getSVGs` works file by file: the icons of `a + b` are those of `a`
      followed by those of `b`, so relative order is kept. */
  lemma GetSvgsAppend(a: seq<TextFile>, b: seq<TextFile>, parse: string -> Option<Svg>, camel: string -> string)
    ensures GetSvgs(a + b, parse, camel) == GetSvgs(a, parse, camel) + GetSvgs(b, parse, camel)
  {
    FilterMapAppend(a, b, (f: TextFile) => LoadIcon(f, parse, camel));
  }

  /** A single file gives one icon when its path matches and its text parses,
      and nothing otherwise. */
  lemma GetSvgsSingle(f: TextFile, parse: string -> Option<Svg>, camel: string -> string)
    ensures |GetSvgs([f], parse, camel)| == (if LoadIcon(f, parse, camel).Some? then 1 else 0)
    ensures GetNameAndSize(f.path).None? ==> GetSvgs([f], parse, camel) == []
    ensures LoadIcon(f, parse, camel).Some? ==> GetSvgs([f], parse, camel) == [LoadIcon(f, parse, camel).value]
  {
    FilterMapSingle(f, (f: TextFile) => LoadIcon(f, parse, camel));
  }

  /** Every icon `getSVGs` returns comes from some file whose path matched,
      with a numeric size, a single-line name, and the names `getNames`
      derives from them. */
  lemma GetSvgsEntries(files: seq<TextFile>, parse: string -> Option<Svg>, camel: string -> string, e: IconEntry)
    requires e in GetSvgs(files, parse, camel)
    ensures e.size != [] && AllDigits(e.size) && !HasLineTerminator(e.name)
    ensures e.filename == e.name + "-" + e.size + ".js"
    ensures e.exportName == PascalCase("icon-" + e.name + e.size, camel)
    ensures exists i :: 0 <= i < |files| && LoadIcon(files[i], parse, camel) == Some(e)
  {
    FilterMapMember(files, (f: TextFile) => LoadIcon(f, parse, camel), e);
    var i :| 0 <= i < |files| && LoadIcon(files[i], parse, camel) == Some(e);
  }
}
