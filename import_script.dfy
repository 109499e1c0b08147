/** scripts/import.js: which Figma components become icons, what they are
    called, the sorted index of their names, the downloads that record each
    icon's key, and the warning about local icons that Figma no longer has. */
module Import {
  import opened Wrappers
  import opened Strings
  import opened Seqs
  import opened Sorting
  import opened Naming
  import opened OutputUtil

  /** `containing_frame`; its `name` may be missing. */
  datatype Frame = Frame(name: Option<string>)

  /** One element of `json.meta.components`. */
  datatype Component = Component(nodeId: string, name: string, frame: Option<Frame>)

  // ---------------------------------------------------------------------
  // poorlyNamedIcons (import.js:189-207)

  /** `comp.containing_frame?.name?.match(/\d/)`: a missing frame or frame
      name does not match. */
  predicate FrameHasDigit(c: Component) {
    match c.frame
    case Some(Frame(Some(n))) => HasDigit(n)
    case _ => false
  }

  /** `/\d\d\//`: two digits and a slash in a row. */
  predicate HasTwoDigitsSlash(s: string) {
    exists i :: 0 <= i && i + 2 < |s| && IsDigit(s[i]) && IsDigit(s[i + 1]) && s[i + 2] == '/'
  }

  /** The filter `poorlyNamedIcons`: a frame name with a digit rejects the
      component; a name without `Size` must have two digits and a slash, and no
      digit in its second slash-separated segment; any other component passes.
      The segment exists whenever the name has a slash, which the first test
      ensures. */
  predicate Accepted(c: Component) {
    if FrameHasDigit(c) then false
    else if !Contains(c.name, "Size") then
      HasTwoDigitsSlash(c.name) && (assert '/' in c.name; !HasDigit(Split(c.name, '/')[1]))
    else true
  }

  /** The second slash-separated segment of `x + "/" + y`, for `x` and `y`
      without slashes. */
  lemma SecondSegment(x: string, y: string)
    requires '/' !in x && '/' !in y
    ensures Split(x + "/" + y, '/')[1] == y
  {
    SplitJoin([x, y], '/');
    assert Join([x, y], "/") == x + "/" + y;
  }

  /** The rule for single names: under a frame name free of digits, a name
      `<prefix>/<segment>` without `Size`, whose prefix ends with two digits, is
      accepted exactly when the segment has no digit (so `16/chevron-down`
      passes and `16/chevron2` does not). */
  lemma SingleNameRule(c: Component, prefix: string, segment: string)
    requires !FrameHasDigit(c) && !Contains(c.name, "Size")
    requires c.name == prefix + "/" + segment
    requires |prefix| >= 2 && IsDigit(prefix[|prefix| - 2]) && IsDigit(prefix[|prefix| - 1])
    requires '/' !in prefix && '/' !in segment
    ensures Accepted(c) <==> !HasDigit(segment)
  {
    var n := c.name;
    var i := |prefix| - 2;
    assert n[i] == prefix[i] && n[i + 1] == prefix[i + 1] && n[i + 2] == '/';
    assert HasTwoDigitsSlash(n);
    SecondSegment(prefix, segment);
  }

  /** A name with no two digits followed by a slash is rejected under a
      digit-free frame unless it contains `Size`. */
  lemma SingleNameNeedsDigits(c: Component)
    requires !FrameHasDigit(c) && !Contains(c.name, "Size") && !HasTwoDigitsSlash(c.name)
    ensures !Accepted(c)
  {
  }

  /** A digit in the frame name rejects a component whatever its own name; a
      digit-free frame and `Size` in the name accept it whatever else the name
      holds. */
  lemma FrameRule(c: Component)
    ensures FrameHasDigit(c) ==> forall n :: !Accepted(Component(c.nodeId, n, c.frame))
    ensures !FrameHasDigit(c) && Contains(c.name, "Size") ==> Accepted(c)
  {
  }

  // ---------------------------------------------------------------------
  // processComponents (import.js:208-222)

  /** `c.containing_frame.name`, where a missing name reads as the empty
      string (both are falsy); only used when the frame exists. */
  function FrameName(c: Component): string {
    match c.frame
    case Some(Frame(Some(n))) => n
    case _ => ""
  }

  /** `parseGroupName` */
  function GroupName(c: Component, slugify: string -> string): string {
    RemoveFirst(c.name, "Size=") + "-" + slugify(FrameName(c))
  }

  /** `parseSingleName` */
  function SingleName(c: Component, slugify: string -> string): string {
    slugify(c.name)
  }

  /** The name `processComponents` gives an accepted component: the group
      name when its frame has a name, the slug of its own name otherwise. */
  function IconName(c: Component, slugify: string -> string): string {
    if FrameName(c) != "" then GroupName(c, slugify) else SingleName(c, slugify)
  }

  /** What `processComponents` does with one component: drop it when the
      filter rejects it, throw when it has no containing frame, and otherwise
      keep its id and name. */
  function Step(c: Component, slugify: string -> string): (r: Outcome<IconRef>)
    ensures r.Fail? <==> Accepted(c) && c.frame.None?
    ensures r.Skip? <==> !Accepted(c)
    ensures r.Keep? ==> r.value == IconRef(c.nodeId, IconName(c, slugify))
  {
    if !Accepted(c) then Skip
    else if c.frame.None? then Fail
    else Keep(IconRef(c.nodeId, IconName(c, slugify)))
  }

  /** `processComponents`: filter, then map. `None` where the map reads
      `containing_frame.name` of an accepted component that has no containing
      frame, which throws a TypeError and ends the import. */
  function ProcessComponents(cs: seq<Component>, slugify: string -> string): (r: Option<seq<IconRef>>)
    ensures r.None? <==> exists i :: 0 <= i < |cs| && Accepted(cs[i]) && cs[i].frame.None?
  {
    var r := Collect(cs, StepFn(slugify));
    assert forall i :: 0 <= i < |cs| ==> (StepFn(slugify)(cs[i]).Fail? <==> Accepted(cs[i]) && cs[i].frame.None?);
    r
  }

  function StepFn(slugify: string -> string): Component -> Outcome<IconRef> {
    (c: Component) => Step(c, slugify)
  }

  /** The icons of a successful run: each is an accepted component, with its
      node id and the name `IconName` gives it, and every accepted component
      gives one. */
  lemma ProcessComponentsMembers(cs: seq<Component>, slugify: string -> string, x: IconRef)
    requires ProcessComponents(cs, slugify).Some?
    ensures x in ProcessComponents(cs, slugify).value <==>
      exists i :: 0 <= i < |cs| && Accepted(cs[i]) && x == IconRef(cs[i].nodeId, IconName(cs[i], slugify))
  {
    var g := SuccessOf(StepFn(slugify));
    FilterMapMember(cs, g, x);
    if exists i :: 0 <= i < |cs| && Accepted(cs[i]) && x == IconRef(cs[i].nodeId, IconName(cs[i], slugify)) {
      var i :| 0 <= i < |cs| && Accepted(cs[i]) && x == IconRef(cs[i].nodeId, IconName(cs[i], slugify));
      assert g(cs[i]) == Some(x);
    }
    if exists i :: 0 <= i < |cs| && g(cs[i]) == Some(x) {
      var i :| 0 <= i < |cs| && g(cs[i]) == Some(x);
      assert Accepted(cs[i]);
    }
  }

  /** Processing is component by component: the icons of `a + b` are those of
      `a` followed by those of `b`, and it fails when either part fails. */
  lemma ProcessComponentsAppend(a: seq<Component>, b: seq<Component>, slugify: string -> string)
    ensures ProcessComponents(a + b, slugify).None? <==>
      ProcessComponents(a, slugify).None? || ProcessComponents(b, slugify).None?
    ensures ProcessComponents(a + b, slugify).Some? ==>
      ProcessComponents(a + b, slugify).value == ProcessComponents(a, slugify).value + ProcessComponents(b, slugify).value
  {
    FilterMapAppend(a, b, SuccessOf(StepFn(slugify)));
    var ab := a + b;
    assert forall i :: 0 <= i < |a| ==> ab[i] == a[i];
    assert forall i :: 0 <= i < |b| ==> ab[|a| + i] == b[i];
  }

  // ---------------------------------------------------------------------
  // processIconNames (import.js:253-260)

  /** `name.split(/-(.*)/s, 2)[1]`: the text after the first hyphen, line
      terminators included; `undefined` (`None`) when there is no hyphen. */
  function Suffix(name: string): (r: Option<string>)
    ensures r.None? <==> '-' !in name
    ensures r.Some? ==> name == SizeAndName(name).size + "-" + r.value
    ensures r.Some? ==> SizeAndName(name).name == ToLower(r.value)
  {
    match IndexOf(name, '-')
    case None => None
    case Some(k) =>
      assert name == name[..k] + "-" + name[k + 1..];
      Some(name[k + 1..])
  }

  function Suffixes(icons: seq<IconRef>): seq<Option<string>> {
    Map(icons, (i: IconRef) => Suffix(i.name))
  }

  /** The distinct suffixes that are strings. */
  function NamedSuffixes(icons: seq<IconRef>): seq<string> {
    Dedup(FilterMap(Suffixes(icons), (o: Option<string>) => o))
  }

  function Defined(n: string): Option<string> { Some(n) }

  /** `undefined`, once, when some icon name has no hyphen. */
  function UndefinedTail(icons: seq<IconRef>): seq<Option<string>> {
    if None in Suffixes(icons) then [None] else []
  }

  /** `processIconNames`: the distinct suffixes, sorted by the comparator;
      `Array.prototype.sort` puts `undefined`, present at most once after the
      `Set`, last without comparing it. */
  function ProcessIconNames(icons: seq<IconRef>, le: (string, string) -> bool): seq<Option<string>> {
    Map(Sort(NamedSuffixes(icons), le), Defined) + UndefinedTail(icons)
  }

  lemma NamedSuffixesMember(icons: seq<IconRef>, x: string)
    ensures x in NamedSuffixes(icons) <==> exists i :: 0 <= i < |icons| && Suffix(icons[i].name) == Some(x)
  {
    var sx := Suffixes(icons);
    DedupMember(FilterMap(sx, (o: Option<string>) => o), x);
    FilterMapMember(sx, (o: Option<string>) => o, x);
    if exists i :: 0 <= i < |icons| && Suffix(icons[i].name) == Some(x) {
      var i :| 0 <= i < |icons| && Suffix(icons[i].name) == Some(x);
      assert sx[i] == Some(x);
    }
  }

  /** The index holds each suffix of the icon names once, the string ones
      first and in the comparator's order, and `undefined` only last. */
  lemma ProcessIconNamesOrdered(icons: seq<IconRef>, le: (string, string) -> bool)
    requires TotalOrder(le)
    ensures NoDup(ProcessIconNames(icons, le))
    ensures var r := ProcessIconNames(icons, le);
      forall i, j :: 0 <= i < j < |r| && r[i].Some? && r[j].Some? ==> le(r[i].value, r[j].value)
    ensures var r := ProcessIconNames(icons, le); forall i :: 0 <= i < |r| - 1 ==> r[i].Some?
  {
    var sorted := Sort(NamedSuffixes(icons), le);
    SortSorted(NamedSuffixes(icons), le);
    SortNoDup(NamedSuffixes(icons), le);
    DefinedThenUndefined(sorted, UndefinedTail(icons), le);
  }

  lemma DefinedThenUndefined(sorted: seq<string>, tail: seq<Option<string>>, le: (string, string) -> bool)
    requires SortedBy(sorted, le) && NoDup(sorted)
    requires tail == [] || tail == [None]
    ensures NoDup(Map(sorted, Defined) + tail)
    ensures var r := Map(sorted, Defined) + tail;
      forall i, j :: 0 <= i < j < |r| && r[i].Some? && r[j].Some? ==> le(r[i].value, r[j].value)
    ensures var r := Map(sorted, Defined) + tail; forall i :: 0 <= i < |r| - 1 ==> r[i].Some?
  {
    var m := Map(sorted, Defined);
    var r := m + tail;
    assert forall i :: 0 <= i < |m| ==> r[i] == Some(sorted[i]);
  }

  /** The strings in the index are exactly the suffixes of the icon names. */
  lemma ProcessIconNamesMembers(icons: seq<IconRef>, le: (string, string) -> bool, x: string)
    ensures Some(x) in ProcessIconNames(icons, le) <==>
      exists i :: 0 <= i < |icons| && Suffix(icons[i].name) == Some(x)
  {
    var d := NamedSuffixes(icons);
    var sorted := Sort(d, le);
    var m := Map(sorted, Defined);
    NamedSuffixesMember(icons, x);
    assert x in sorted <==> x in d by {
      assert x in multiset(sorted) <==> x in multiset(d);
    }
    if x in sorted {
      var k :| 0 <= k < |sorted| && sorted[k] == x;
      assert m[k] == Some(x);
    }
    if Some(x) in m {
      var k :| 0 <= k < |m| && m[k] == Some(x);
      assert sorted[k] == x;
    }
  }

  /** `undefined` is in the index exactly when some icon name has no hyphen. */
  lemma ProcessIconNamesUndefined(icons: seq<IconRef>, le: (string, string) -> bool)
    ensures None in ProcessIconNames(icons, le) <==> exists i :: 0 <= i < |icons| && '-' !in icons[i].name
  {
    var sx := Suffixes(icons);
    var m := Map(Sort(NamedSuffixes(icons), le), Defined);
    assert None !in m;
    if exists i :: 0 <= i < |icons| && '-' !in icons[i].name {
      var i :| 0 <= i < |icons| && '-' !in icons[i].name;
      assert sx[i] == None;
    }
  }

  // ---------------------------------------------------------------------
  // Downloads and the missing-icon warning (import.js:12-13,116-117,171-187)

  /** The key `size + name` that `downloadSvgIcon` pushes to `downloadedIcons`,
      or nothing for an icon with an empty name part. */
  function DownloadKey(iconName: string): (r: Option<string>)
    ensures r.None? <==> EmptyNamePart(iconName)
  {
    var sn := SizeAndName(iconName);
    if sn.name == "" then None else Some(sn.size + sn.name)
  }

  /** The module-level state of the import script: the keys of the icons
      downloaded so far and the files written, in the order of the writes. */
  class Importer {
    var downloaded: seq<string>
    var written: seq<TextFile>

    constructor ()
      ensures downloaded == [] && written == []
    {
      downloaded := [];
      written := [];
    }

    /** `downloadSvgIcon` once the SVG text `svg` has arrived: an icon with an
        empty name part is skipped; any other records its key and is written
        to `<basedir>/raw/<size>/<name>.svg`. */
    method DownloadSvgIcon(basedir: string, iconName: string, svg: string)
      modifies this
      ensures EmptyNamePart(iconName) ==> downloaded == old(downloaded) && written == old(written)
      ensures !EmptyNamePart(iconName) ==>
        && downloaded == old(downloaded) + [DownloadKey(iconName).value]
        && written == old(written) + [TextFile(RawIconPath(basedir, iconName).value, svg)]
    {
      var sn := SizeAndName(iconName);
      if sn.name == "" {
        return;
      }
      var path := basedir + "/raw/" + sn.size + "/" + sn.name + ".svg";
      downloaded := downloaded + [sn.size + sn.name];
      written := written + [TextFile(path, svg)];
    }

    /** The downloads of `main`, in the order in which they complete: each
        pair is an icon name and the SVG text fetched for it. */
    method DownloadAll(basedir: string, fetched: seq<(string, string)>)
      modifies this
      ensures downloaded == old(downloaded) + FilterMap(fetched, DownloadKeyOf)
      ensures written == old(written) + FilterMap(fetched, (p: (string, string)) => WrittenFile(basedir, p))
    {
      for n := 0 to |fetched|
        invariant downloaded == old(downloaded) + FilterMap(fetched[..n], DownloadKeyOf)
        invariant written == old(written) + FilterMap(fetched[..n], (p: (string, string)) => WrittenFile(basedir, p))
      {
        FilterMapSnoc(fetched, n, DownloadKeyOf);
        FilterMapSnoc(fetched, n, (p: (string, string)) => WrittenFile(basedir, p));
        DownloadStep(basedir, fetched[n]);
        DownloadSvgIcon(basedir, fetched[n].0, fetched[n].1);
        AppendAssoc(old(downloaded), FilterMap(fetched[..n], DownloadKeyOf), Kept(DownloadKeyOf(fetched[n])));
        AppendAssoc(old(written), FilterMap(fetched[..n], (p: (string, string)) => WrittenFile(basedir, p)),
                    Kept(WrittenFile(basedir, fetched[n])));
      }
      assert fetched[..|fetched|] == fetched;
    }
  }

  function DownloadKeyOf(p: (string, string)): Option<string> {
    DownloadKey(p.0)
  }

  /** The file one completed download writes, if any. */
  function WrittenFile(basedir: string, p: (string, string)): Option<TextFile> {
    match RawIconPath(basedir, p.0)
    case None => None
    case Some(path) => Some(TextFile(path, p.1))
  }

  lemma DownloadStep(basedir: string, p: (string, string))
    ensures EmptyNamePart(p.0) ==> Kept(DownloadKeyOf(p)) == [] && Kept(WrittenFile(basedir, p)) == []
    ensures !EmptyNamePart(p.0) ==>
      && Kept(DownloadKeyOf(p)) == [DownloadKey(p.0).value]
      && Kept(WrittenFile(basedir, p)) == [TextFile(RawIconPath(basedir, p.0).value, p.1)]
  {
  }

  /** `existingIcons`: the key of every SVG file under `raw/`, in glob order;
      `None` when some path does not match the path regex, where
      `getNameAndSize` throws while the module loads. */
  function ExistingKeys(paths: seq<string>): (r: Option<seq<string>>)
    ensures r.None? <==> exists i :: 0 <= i < |paths| && GetNameAndSize(paths[i]).None?
    ensures r.Some? ==> |r.value| == |paths|
    ensures r.Some? ==> forall i :: 0 <= i < |paths| ==>
      GetNameAndSize(paths[i]).Some? && r.value[i] == GetNameAndSize(paths[i]).value.size + GetNameAndSize(paths[i]).value.name
  {
    if paths == [] then Some([])
    else
      var init := paths[..|paths| - 1];
      assert forall i :: 0 <= i < |init| ==> init[i] == paths[i];
      match ExistingKeys(init)
      case None => None
      case Some(ks) =>
        match GetNameAndSize(paths[|paths| - 1])
        case None => None
        case Some(k) => Some(ks + [k.size + k.name])
  }

  /** `existingIcons.some(e => !downloadedIcons.includes(e))` */
  function AnyMissing(existing: seq<string>, downloaded: seq<string>): (r: bool)
    ensures r <==> exists i :: 0 <= i < |existing| && existing[i] !in downloaded
  {
    if existing == [] then false
    else existing[0] !in downloaded || AnyMissing(existing[1..], downloaded)
  }

  /** The warning does not depend on the order in which the concurrent
      downloads complete. */
  lemma {:induction false} WarningIgnoresCompletionOrder(existing: seq<string>, a: seq<(string, string)>, b: seq<(string, string)>)
    requires multiset(a) == multiset(b)
    ensures AnyMissing(existing, FilterMap(a, DownloadKeyOf)) == AnyMissing(existing, FilterMap(b, DownloadKeyOf))
  {
    forall y ensures y in FilterMap(a, DownloadKeyOf) <==> y in FilterMap(b, DownloadKeyOf) {
      FilterMapMember(a, DownloadKeyOf, y);
      FilterMapMember(b, DownloadKeyOf, y);
      if exists i :: 0 <= i < |a| && DownloadKeyOf(a[i]) == Some(y) {
        var i :| 0 <= i < |a| && DownloadKeyOf(a[i]) == Some(y);
        assert a[i] in multiset(b);
        var j :| 0 <= j < |b| && b[j] == a[i];
      }
      if exists j :: 0 <= j < |b| && DownloadKeyOf(b[j]) == Some(y) {
        var j :| 0 <= j < |b| && DownloadKeyOf(b[j]) == Some(y);
        assert b[j] in multiset(a);
        var i :| 0 <= i < |a| && a[i] == b[j];
      }
    }
  }

  /** A root with no digit followed by a slash, extended by `/raw/`, keeps
      that property. */
  lemma RawDirNoDigitSlash(basedir: string)
    requires NoDigitSlash(basedir) && !EndsWithDigit(basedir)
    ensures NoDigitSlash(basedir + "/raw/") && !EndsWithDigit(basedir + "/raw/")
  {
    var p := basedir + "/raw/";
    assert forall t :: 0 <= t < |basedir| ==> p[t] == basedir[t];
  }

  /** A downloaded icon is found again on the next run: when its size part is
      a number, its name is on one line and the root has no digit followed by
      a slash, the regex recovers from the written path exactly the key that
      was recorded, so the warning does not fire for it. */
  lemma DownloadRoundTrip(basedir: string, iconName: string)
    requires NoDigitSlash(basedir) && !EndsWithDigit(basedir)
    requires !EmptyNamePart(iconName)
    requires SizeAndName(iconName).size != [] && AllDigits(SizeAndName(iconName).size)
    requires !HasLineTerminator(iconName)
    ensures ExistingKeys([RawIconPath(basedir, iconName).value]) == Some([DownloadKey(iconName).value])
  {
    var sn := SizeAndName(iconName);
    RawDirNoDigitSlash(basedir);
    SizeAndNameSingleLine(iconName);
    GetNameAndSizeOfIconPath(basedir + "/raw/", sn.size, sn.name);
    var path := RawIconPath(basedir, iconName).value;
    assert path == basedir + "/raw/" + sn.size + "/" + sn.name + ".svg";
    assert GetNameAndSize(path) == Some(PathKey(sn.size, sn.name));
    assert [path][..0] == [];
    assert ExistingKeys([path][..0]) == Some([]);
    var key: seq<string> := [sn.size + sn.name];
    assert ExistingKeys([path]) == Some([] + key);
    assert [] + key == key;
  }
}
