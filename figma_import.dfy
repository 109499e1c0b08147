/** scripts/figma-import.js: the icons are the children of one canvas of the
    Figma document whose names start with a size prefix; their names are split
    by `sizeAndName` (see `Naming`) and written below `raw/`. */
module FigmaImport {
  import opened Wrappers
  import opened Strings
  import opened Seqs
  import opened Naming

  /** A node of the Figma document tree. */
  datatype FigmaNode = FigmaNode(id: string, name: string, children: seq<FigmaNode>)

  /** The id of the canvas that holds the icons. */
  const CanvasId: string := "31:2"

  /** The three size prefixes an icon node's name may start with. */
  const SizePrefixes: seq<string> := ["16x16-", "24x24-", "32x32-"]

  /** `isIconNode` */
  predicate IsIconNode(node: FigmaNode) {
    StartsWith(node.name, "16x16-") || StartsWith(node.name, "24x24-") || StartsWith(node.name, "32x32-")
  }

  /** The position of `children.find((c) => c.id === id)`: the first child
      with that id. */
  function FindChild(nodes: seq<FigmaNode>, id: string): (r: Option<nat>)
    ensures r.Some? ==> r.value < |nodes| && nodes[r.value].id == id
    ensures r.Some? ==> forall j :: 0 <= j < r.value ==> nodes[j].id != id
    ensures r.None? <==> forall i :: 0 <= i < |nodes| ==> nodes[i].id != id
  {
    if nodes == [] then None
    else if nodes[0].id == id then Some(0)
    else
      assert forall i :: 1 <= i < |nodes| ==> nodes[i] == nodes[1..][i - 1];
      match FindChild(nodes[1..], id)
      case None => None
      case Some(k) => Some(k + 1)
  }

  /** The canvas that holds the icons, if the document has it: the first
      child with the canvas id. */
  function Canvas(document: FigmaNode): (r: Option<FigmaNode>)
    ensures r.Some? ==> r.value in document.children && r.value.id == CanvasId
    ensures r.None? <==> forall i :: 0 <= i < |document.children| ==> document.children[i].id != CanvasId
    ensures r.Some? ==>
      FindChild(document.children, CanvasId).Some?
      && r.value == document.children[FindChild(document.children, CanvasId).value]
  {
    match FindChild(document.children, CanvasId)
    case None => None
    case Some(k) => Some(document.children[k])
  }

  /** The icon record of an accepted node. */
  function IconOfNode(node: FigmaNode): Option<IconRef> {
    if IsIconNode(node) then Some(IconRef(node.id, node.name)) else None
  }

  /** `filterIcons`: the icon nodes of the canvas, in order, as records;
      `None` when the document has no such canvas and `canvas.children`
      throws. */
  function FilterIcons(document: FigmaNode): (r: Option<seq<IconRef>>)
    ensures r.None? <==> forall i :: 0 <= i < |document.children| ==> document.children[i].id != CanvasId
    ensures r.Some? ==> |r.value| <= |Canvas(document).value.children|
  {
    match Canvas(document)
    case None => None
    case Some(canvas) => Some(FilterMap(canvas.children, IconOfNode))
  }

  /** The records are exactly the canvas's children that pass `isIconNode`,
      with their id and name. */
  lemma FilterIconsMembers(document: FigmaNode, x: IconRef)
    requires FilterIcons(document).Some?
    ensures var canvas := Canvas(document).value;
      x in FilterIcons(document).value <==>
        exists i :: 0 <= i < |canvas.children| && IsIconNode(canvas.children[i])
          && x == IconRef(canvas.children[i].id, canvas.children[i].name)
  {
    var canvas := Canvas(document).value;
    FilterMapMember(canvas.children, IconOfNode, x);
    if exists i :: 0 <= i < |canvas.children| && IconOfNode(canvas.children[i]) == Some(x) {
      var i :| 0 <= i < |canvas.children| && IconOfNode(canvas.children[i]) == Some(x);
      assert IsIconNode(canvas.children[i]);
    }
  }

  /** Filtering keeps the canvas order: the records of two runs of children
      are the records of each run, one after the other. */
  lemma FilterIconsOrder(a: seq<FigmaNode>, b: seq<FigmaNode>)
    ensures FilterMap(a + b, IconOfNode) == FilterMap(a, IconOfNode) + FilterMap(b, IconOfNode)
  {
    FilterMapAppend(a, b, IconOfNode);
  }

  /** A name starting with one of the prefixes has its first hyphen at 5. */
  lemma PrefixHyphen(name: string, prefix: string)
    requires prefix in SizePrefixes && StartsWith(name, prefix)
    ensures IndexOf(name, '-') == Some(5)
    ensures name[..5] == prefix[..5]
  {
    assert name[..6] == prefix;
    assert forall i :: 0 <= i < 5 ==> name[i] == prefix[i];
    IndexOfUnique(name, '-', 5);
  }

  /** For an icon node, `sizeAndName` gives one of the three sizes and a name
      without capital letters. */
  lemma IconNodeSizeAndName(node: FigmaNode)
    requires IsIconNode(node)
    ensures SizeAndName(node.name).size in ["16x16", "24x24", "32x32"]
    ensures !HasAsciiUpper(SizeAndName(node.name).name)
  {
    var prefix :| prefix in SizePrefixes && StartsWith(node.name, prefix);
    PrefixHyphen(node.name, prefix);
    assert SizeAndName(node.name).size == prefix[..5];
    assert prefix == SizePrefixes[0] || prefix == SizePrefixes[1] || prefix == SizePrefixes[2];
    assert SizePrefixes[0][..5] == "16x16" && SizePrefixes[1][..5] == "24x24" && SizePrefixes[2][..5] == "32x32";
    NameIsLowerCase(node.name);
  }

  /** An icon node whose name is just its size prefix has an empty name part
      and is not downloaded; any longer one is. */
  lemma IconNodeDownloaded(node: FigmaNode, root: string)
    requires IsIconNode(node)
    ensures RawIconPath(root, node.name).None? <==> |node.name| == 6
  {
    var prefix :| prefix in SizePrefixes && StartsWith(node.name, prefix);
    PrefixHyphen(node.name, prefix);
  }
}
