/** preview/render.js: one record per SVG in the distribution directory, then
    the records grouped into a dictionary keyed by icon size, which the page
    template renders. */
module Preview {
  import opened Strings
  import opened Seqs
  import opened NodePath
  import opened OutputUtil
  import Build

  /** `{ name, svg, iconSize }` */
  datatype PreviewIcon = PreviewIcon(name: string, svg: string, iconSize: string)

  /** The record of the file at `f.path` whose text is `f.content`. */
  function MakeIcon(f: TextFile): PreviewIcon {
    PreviewIcon(ParseName(Basename(f.path)), f.content, Build.GetIconSize(f.path))
  }

  /** `svgPaths.map(...)`: one record per path, in order. */
  function Icons(files: seq<TextFile>): (r: seq<PreviewIcon>)
    ensures |r| == |files|
    ensures forall i :: 0 <= i < |files| ==> r[i] == MakeIcon(files[i])
  {
    Map(files, MakeIcon)
  }

  /** An icon at `<dir>/<size>/<stem>.svg` is named `stem` and has size `size`. */
  lemma MakeIconOfIconPath(dir: string, size: string, stem: string, data: string)
    requires size != "" && '/' !in size
    requires stem != "" && '/' !in stem
    ensures MakeIcon(TextFile(dir + "/" + size + "/" + stem + ".svg", data)) == PreviewIcon(stem, data, size)
  {
    var file := stem + ".svg";
    assert '/' !in ".svg";
    assert dir + "/" + size + "/" + stem + ".svg" == dir + "/" + size + "/" + file;
    Build.IconSizeOfIconPath(dir, size, file);
    assert dir + "/" + size + "/" + file == (dir + "/" + size) + "/" + file;
    BasenameOfChild(dir + "/" + size, file);
    ParseNameSvg(stem);
  }

  /** The icons of size `k`, in the order of `icons`. */
  function OfSize(icons: seq<PreviewIcon>, k: string): (r: seq<PreviewIcon>)
    ensures |r| <= |icons|
  {
    if icons == [] then []
    else OfSize(icons[..|icons| - 1], k) + (if icons[|icons| - 1].iconSize == k then [icons[|icons| - 1]] else [])
  }

  /** The sizes that occur among `icons`. */
  function Sizes(icons: seq<PreviewIcon>): set<string> {
    set i | 0 <= i < |icons| :: icons[i].iconSize
  }

  /** The grouping loop: `iconsBySize[size]` is the array of icons of that
      size, and a size is a key once one of its icons has been seen. */
  method GroupBySize(icons: seq<PreviewIcon>) returns (groups: map<string, seq<PreviewIcon>>)
    ensures groups.Keys == Sizes(icons)
    ensures forall k :: k in groups ==> groups[k] == OfSize(icons, k)
    ensures forall i, k :: 0 <= i < |icons| && k in groups ==> (icons[i] in groups[k] <==> k == icons[i].iconSize)
    ensures forall k :: k in groups ==> |groups[k]| >= 1
  {
    groups := map[];
    for n := 0 to |icons|
      invariant groups.Keys == Sizes(icons[..n])
      invariant forall k :: k in groups ==> groups[k] == OfSize(icons[..n], k)
    {
      var icon := icons[n];
      var group := if icon.iconSize in groups then groups[icon.iconSize] else [];
      group := group + [icon];
      groups := groups[icon.iconSize := group];
      OfSizeSnoc(icons, n);
      SizesSnoc(icons, n);
    }
    assert icons[..|icons|] == icons;
    forall k | k in groups ensures |groups[k]| >= 1 && forall x :: x in groups[k] <==> x in icons && x.iconSize == k {
      OfSizeMember(icons, k);
      NoEmptyGroup(icons, k);
    }
  }

  lemma OfSizeSnoc(icons: seq<PreviewIcon>, n: nat)
    requires n < |icons|
    ensures forall k :: OfSize(icons[..n + 1], k) == OfSize(icons[..n], k) + (if icons[n].iconSize == k then [icons[n]] else [])
  {
    assert icons[..n + 1][..n] == icons[..n];
  }

  lemma SizesSnoc(icons: seq<PreviewIcon>, n: nat)
    requires n < |icons|
    ensures Sizes(icons[..n + 1]) == Sizes(icons[..n]) + {icons[n].iconSize}
    ensures forall k :: k !in Sizes(icons[..n]) ==> OfSize(icons[..n], k) == []
  {
    var a, b := icons[..n], icons[..n + 1];
    forall k | k in Sizes(b) ensures k in Sizes(a) + {icons[n].iconSize} {
      var i :| 0 <= i < |b| && b[i].iconSize == k;
      if i < n { assert a[i] == b[i]; }
    }
    forall k | k in Sizes(a) ensures k in Sizes(b) {
      var i :| 0 <= i < |a| && a[i].iconSize == k;
      assert b[i] == a[i];
    }
    assert b[n] == icons[n];
    forall k | OfSize(a, k) != [] ensures k in Sizes(a) {
      GroupedSizeOccurs(a, k);
    }
  }

  lemma GroupedSizeOccurs(icons: seq<PreviewIcon>, k: string)
    requires OfSize(icons, k) != []
    ensures k in Sizes(icons)
  {
    OfSizeMember(icons, k);
    var x := OfSize(icons, k)[0];
    assert x in OfSize(icons, k);
    var i :| 0 <= i < |icons| && icons[i] == x;
    assert icons[i].iconSize == k;
  }

  /** An icon is in the group of size `k` exactly when it is one of the icons
      and has size `k`: each icon is in one group, the one of its own size. */
  lemma {:induction false} OfSizeMember(icons: seq<PreviewIcon>, k: string)
    ensures forall x :: x in OfSize(icons, k) <==> x in icons && x.iconSize == k
  {
    if icons != [] {
      var init := icons[..|icons| - 1];
      OfSizeMember(init, k);
      assert icons == init + [icons[|icons| - 1]];
    }
  }

  /** Grouping keeps the order of the icons: the group of `a + b` is the group
      of `a` followed by the group of `b`. */
  lemma {:induction false} OfSizeAppend(a: seq<PreviewIcon>, b: seq<PreviewIcon>, k: string)
    ensures OfSize(a + b, k) == OfSize(a, k) + OfSize(b, k)
    decreases |b|
  {
    if b == [] {
      assert a + b == a;
    } else {
      var b' := b[..|b| - 1];
      assert (a + b)[..|a + b| - 1] == a + b';
      assert (a + b)[|a + b| - 1] == b[|b| - 1];
      OfSizeAppend(a, b', k);
    }
  }

  /** No group is empty. */
  lemma NoEmptyGroup(icons: seq<PreviewIcon>, k: string)
    requires k in Sizes(icons)
    ensures |OfSize(icons, k)| >= 1
  {
    var i :| 0 <= i < |icons| && icons[i].iconSize == k;
    OfSizeMember(icons, k);
    assert icons[i] in OfSize(icons, k);
  }

  /** The lengths of the groups of the sizes `ks`, added up. */
  function SumLengths(icons: seq<PreviewIcon>, ks: seq<string>): nat {
    if ks == [] then 0 else |OfSize(icons, ks[0])| + SumLengths(icons, ks[1..])
  }

  lemma {:induction false} SumLengthsSnoc(icons: seq<PreviewIcon>, x: PreviewIcon, ks: seq<string>)
    requires NoDup(ks)
    ensures SumLengths(icons + [x], ks) == SumLengths(icons, ks) + (if x.iconSize in ks then 1 else 0)
  {
    if ks != [] {
      assert (icons + [x])[..|icons|] == icons;
      assert NoDup(ks[1..]) by {
        forall i, j | 0 <= i < j < |ks[1..]| ensures ks[1..][i] != ks[1..][j] {
          assert ks[1..][i] == ks[i + 1] && ks[1..][j] == ks[j + 1];
        }
      }
      SumLengthsSnoc(icons, x, ks[1..]);
      if ks[0] == x.iconSize {
        assert x.iconSize !in ks[1..] by {
          forall j | 0 <= j < |ks[1..]| ensures ks[1..][j] != ks[0] {
            assert ks[1..][j] == ks[j + 1];
          }
        }
      } else {
        assert x.iconSize in ks <==> x.iconSize in ks[1..];
      }
    }
  }

  /** The groups of any duplicate-free list of the sizes hold as many icons
      as there are, so with `GroupBySize` their lengths add up to the number
      of icons. */
  lemma {:induction false} GroupsCoverIcons(icons: seq<PreviewIcon>, ks: seq<string>)
    requires NoDup(ks)
    requires forall i :: 0 <= i < |icons| ==> icons[i].iconSize in ks
    ensures SumLengths(icons, ks) == |icons|
    decreases |icons|
  {
    if icons == [] {
      SumLengthsEmpty(ks);
    } else {
      var init, x := icons[..|icons| - 1], icons[|icons| - 1];
      GroupsCoverIcons(init, ks);
      assert icons == init + [x];
      SumLengthsSnoc(init, x, ks);
    }
  }

  lemma {:induction false} SumLengthsEmpty(ks: seq<string>)
    ensures SumLengths([], ks) == 0
  {
    if ks != [] {
      SumLengthsEmpty(ks[1..]);
    }
  }
}
