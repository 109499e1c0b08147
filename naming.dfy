/** `sizeAndName` and the download guard that both import scripts share
    (scripts/import.js and scripts/figma-import.js define them identically):
    a Figma icon name `<size>-<name>` is split at its first hyphen, and an icon
    whose name part is empty is never downloaded. */
module Naming {
  import opened Wrappers
  import opened Strings

  datatype SizeName = SizeName(size: string, name: string)

  /** An icon as the import scripts collect it: the Figma node id and the name. */
  datatype IconRef = IconRef(id: string, name: string)

  /** `sizeAndName`: the text before the first hyphen, and the rest joined back
      with hyphens and lower-cased. */
  function SizeAndName(iconName: string): (r: SizeName)
    ensures '-' !in r.size
    ensures '-' !in iconName ==> r == SizeName(iconName, "")
    ensures '-' in iconName ==>
      var k := IndexOf(iconName, '-').value;
      r.size == iconName[..k] && r.name == ToLower(iconName[k + 1..])
  {
    var parts := Split(iconName, '-');
    match IndexOf(iconName, '-')
    case None => SizeName(parts[0], ToLower(Join(parts[1..], "-")))
    case Some(k) =>
      SplitAtFirst(iconName, '-', k);
      SizeName(parts[0], ToLower(Join(parts[1..], "-")))
  }

  /** The name part is empty exactly when there is no hyphen or the first
      hyphen is the last character. */
  predicate EmptyNamePart(iconName: string) {
    '-' !in iconName || IndexOf(iconName, '-').value == |iconName| - 1
  }

  /** Where `downloadSvgIcon` writes an icon below the repository root `root`:
      `<root>/raw/<size>/<name>.svg`, or nowhere (`if (!name) return`) when the
      name part is empty. */
  function RawIconPath(root: string, iconName: string): (r: Option<string>)
    ensures r.None? <==> EmptyNamePart(iconName)
  {
    var sn := SizeAndName(iconName);
    if sn.name == "" then None
    else Some(root + "/raw/" + sn.size + "/" + sn.name + ".svg")
  }

  /** Lower-casing keeps a string free of line terminators. */
  lemma ToLowerKeepsLines(s: string)
    requires !HasLineTerminator(s)
    ensures !HasLineTerminator(ToLower(s))
  {
    var r := ToLower(s);
    forall i | 0 <= i < |r| ensures !IsLineTerminator(r[i]) {
      assert r[i] == ToLowerChar(s[i]);
    }
  }

  /** The name part never holds an ASCII capital. */
  lemma NameIsLowerCase(iconName: string)
    ensures !HasAsciiUpper(SizeAndName(iconName).name)
  {
    var n := SizeAndName(iconName).name;
    if '-' in iconName {
      var k := IndexOf(iconName, '-').value;
      forall i | 0 <= i < |n| ensures !IsAsciiUpper(n[i]) {
        assert n[i] == ToLowerChar(iconName[k + 1..][i]);
      }
    }
  }

  /** Neither part of a single-line icon name holds a line terminator. */
  lemma SizeAndNameSingleLine(iconName: string)
    requires !HasLineTerminator(iconName)
    ensures !HasLineTerminator(SizeAndName(iconName).size)
    ensures !HasLineTerminator(SizeAndName(iconName).name)
  {
    if '-' in iconName {
      var k := IndexOf(iconName, '-').value;
      var a, b := iconName[..k], iconName[k + 1..];
      forall i | 0 <= i < |a| ensures !IsLineTerminator(a[i]) { assert a[i] == iconName[i]; }
      forall i | 0 <= i < |b| ensures !IsLineTerminator(b[i]) { assert b[i] == iconName[k + 1 + i]; }
      ToLowerKeepsLines(b);
    }
  }
}
