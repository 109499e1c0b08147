/** What the three scripts under scripts/output/ share: each walks the icons
    `getSVGs` returns, writes one module per icon into its target directory
    and records `{ exportName, filename }` in its `icons` array, reports how
    many it wrote, and then writes `index.js` with one line per recorded icon.
    None of the writes is inside a `try`: the first one that throws ends the
    script, leaving the files written before it. The targets differ only in
    the module template and the index line. */
module OutputScripts {
  import opened Wrappers
  import opened Strings
  import opened Seqs
  import opened OutputUtil
  import Elements
  import React
  import Vue

  datatype Target = LitTarget | ReactTarget | VueTarget

  /** The module text a target writes for an icon. */
  function ModuleText(t: Target, e: IconEntry): string {
    match t
    case LitTarget => Elements.ModuleText(e)
    case ReactTarget => React.ModuleText(e)
    case VueTarget => Vue.ModuleText(e)
  }

  /** The index line a target writes for a recorded icon. */
  function IndexLine(t: Target, x: IconExport): string {
    match t
    case LitTarget => Elements.IndexLine(x)
    case ReactTarget => React.IndexLine(x)
    case VueTarget => Vue.IndexLine(x)
  }

  function IndexLineOf(t: Target): IconExport -> string {
    (x: IconExport) => IndexLine(t, x)
  }

  /** `icons.map(...).join("\n")`: no newline after the last line, and the
      empty string when there are no icons. */
  function IndexText(t: Target, icons: seq<IconExport>): string {
    Join(Map(icons, IndexLineOf(t)), "\n")
  }

  /** The module written for an icon, at `joinPath(basepath, filename)`. */
  function ModuleFile(t: Target, basepath: string, e: IconEntry): TextFile {
    TextFile(basepath + e.filename, ModuleText(t, e))
  }

  function ModuleFileOf(t: Target, basepath: string): IconEntry -> TextFile {
    (e: IconEntry) => ModuleFile(t, basepath, e)
  }

  /** How many of `svgs` get their module written before the first write
      that throws: all of them when none does. Whether writing a path
      succeeds is the parameter `canWrite`. */
  function WrittenCount(t: Target, basepath: string, svgs: seq<IconEntry>, canWrite: string -> bool): (n: nat)
    ensures n <= |svgs|
    ensures forall i :: 0 <= i < n ==> canWrite(ModuleFile(t, basepath, svgs[i]).path)
    ensures n < |svgs| ==> !canWrite(ModuleFile(t, basepath, svgs[n]).path)
    decreases |svgs|
  {
    if svgs == [] || !canWrite(ModuleFile(t, basepath, svgs[0]).path) then 0
    else
      var n := 1 + WrittenCount(t, basepath, svgs[1..], canWrite);
      assert forall i :: 1 <= i < |svgs| ==> svgs[1..][i - 1] == svgs[i];
      n
  }

  /** The write of the `n`-th module succeeds exactly when the run gets past it. */
  lemma WrittenCountStep(t: Target, basepath: string, svgs: seq<IconEntry>, canWrite: string -> bool, n: nat)
    requires n < |svgs| && n <= WrittenCount(t, basepath, svgs, canWrite)
    ensures canWrite(ModuleFile(t, basepath, svgs[n]).path) <==> n < WrittenCount(t, basepath, svgs, canWrite)
  {
  }

  /** Every module is written exactly when no module write throws. */
  lemma WrittenCountAll(t: Target, basepath: string, svgs: seq<IconEntry>, canWrite: string -> bool)
    ensures WrittenCount(t, basepath, svgs, canWrite) == |svgs|
      <==> forall i :: 0 <= i < |svgs| ==> canWrite(ModuleFile(t, basepath, svgs[i]).path)
  {
  }

  /** The state of one output script: its target directory, the `icons`
      array and the files written so far, in order. */
  class Emitter {
    const target: Target
    const basepath: string
    var icons: seq<IconExport>
    var written: seq<TextFile>

    constructor (target: Target, basepath: string)
      ensures this.target == target && this.basepath == basepath
      ensures icons == [] && written == []
    {
      this.target := target;
      this.basepath := basepath;
      icons := [];
      written := [];
    }

    /** The body of `getSVGs().forEach(...)` for one icon. The write is not
        inside a `try`: when it throws (`ok` is false) nothing is recorded and
        the script ends. */
    method EmitIcon(e: IconEntry, canWrite: string -> bool) returns (ok: bool)
      modifies this
      ensures ok <==> canWrite(ModuleFile(target, basepath, e).path)
      ensures icons == old(icons) + (if ok then [ExportOf(e)] else [])
      ensures written == old(written) + (if ok then [ModuleFile(target, basepath, e)] else [])
    {
      var output := ModuleText(target, e);
      var path := basepath + e.filename;
      if !canWrite(path) {
        return false;
      }
      written := written + [TextFile(path, output)];
      icons := icons + [IconExport(e.exportName, e.filename)];
      ok := true;
    }

    /** `getSVGs().forEach(...)`: one module and one record per icon, in the
        order of `svgs`, up to the first write that throws. */
    method EmitAll(svgs: seq<IconEntry>, canWrite: string -> bool) returns (ok: bool)
      modifies this
      ensures var n := WrittenCount(target, basepath, svgs, canWrite);
        && (ok <==> n == |svgs|)
        && icons == old(icons) + Map(svgs[..n], ExportOf)
        && written == old(written) + Map(svgs[..n], ModuleFileOf(target, basepath))
    {
      ghost var m := WrittenCount(target, basepath, svgs, canWrite);
      var n := 0;
      while n < |svgs|
        invariant n <= m
        invariant icons == old(icons) + Map(svgs[..n], ExportOf)
        invariant written == old(written) + Map(svgs[..n], ModuleFileOf(target, basepath))
      {
        WrittenCountStep(target, basepath, svgs, canWrite, n);
        var wrote := EmitIcon(svgs[n], canWrite);
        if !wrote {
          return false;
        }
        MapSnoc(svgs, n, ExportOf);
        MapSnoc(svgs, n, ModuleFileOf(target, basepath));
        AppendAssoc(old(icons), Map(svgs[..n], ExportOf), [ExportOf(svgs[n])]);
        AppendAssoc(old(written), Map(svgs[..n], ModuleFileOf(target, basepath)), [ModuleFileOf(target, basepath)(svgs[n])]);
        n := n + 1;
      }
      assert svgs[..|svgs|] == svgs;
      ok := true;
    }

    /** Writes `index.js` from the recorded icons, unless that write throws. */
    method WriteIndex(canWrite: string -> bool) returns (ok: bool)
      modifies this
      ensures ok <==> canWrite(basepath + "index.js")
      ensures icons == old(icons)
      ensures written == old(written) + (if ok then [TextFile(basepath + "index.js", IndexText(target, icons))] else [])
    {
      var indexFile := Join(Map(icons, IndexLineOf(target)), "\n");
      var indexFilename := basepath + "index.js";
      if !canWrite(indexFilename) {
        return false;
      }
      written := written + [TextFile(indexFilename, indexFile)];
      ok := true;
    }
  }

  /** One run of an output script over the icons `svgs`: the count it reports
      (none when a module write throws first and ends the script) and the
      files it writes, the modules in order and then the index. */
  method RunScript(t: Target, basepath: string, svgs: seq<IconEntry>, canWrite: string -> bool)
    returns (count: Option<nat>, files: seq<TextFile>)
    ensures var n := WrittenCount(t, basepath, svgs, canWrite);
      && (count.Some? <==> n == |svgs|)
      && (count.Some? ==> count.value == |svgs|)
      && files == Map(svgs[..n], ModuleFileOf(t, basepath))
           + (if n == |svgs| && canWrite(basepath + "index.js")
              then [TextFile(basepath + "index.js", IndexText(t, Map(svgs, ExportOf)))] else [])
  {
    ghost var n := WrittenCount(t, basepath, svgs, canWrite);
    var em := new Emitter(t, basepath);
    var ok := em.EmitAll(svgs, canWrite);
    assert em.target == t && em.basepath == basepath;
    assert em.written == Map(svgs[..n], ModuleFileOf(t, basepath));
    if !ok {
      return None, em.written;
    }
    assert svgs[..n] == svgs;
    assert em.icons == Map(svgs, ExportOf);
    count := Some(|em.icons|);
    ghost var modules := em.written;
    var indexWritten := em.WriteIndex(canWrite);
    assert indexWritten <==> canWrite(basepath + "index.js");
    files := em.written;
  }

  lemma IndexLineSingle(t: Target, x: IconExport)
    requires '\n' !in x.filename
    requires t == VueTarget ==> '\n' !in x.exportName
    ensures '\n' !in IndexLine(t, x)
  {
    match t
    case LitTarget =>
      assert '\n' !in "export * from './" && '\n' !in "';";
    case ReactTarget =>
      assert '\n' !in "export * from './" && '\n' !in "'";
    case VueTarget =>
      assert '\n' !in "export { default as " && '\n' !in " } from './" && '\n' !in "'";
  }

  /** The index consists of one line per recorded icon, in order, naming its
      file: splitting its text at newlines gives the lines back, when no file
      name (and, for Vue, no export name) holds a newline. */
  lemma IndexLinesRecovered(t: Target, icons: seq<IconExport>)
    requires |icons| >= 1
    requires forall i :: 0 <= i < |icons| ==> '\n' !in icons[i].filename
    requires t == VueTarget ==> forall i :: 0 <= i < |icons| ==> '\n' !in icons[i].exportName
    ensures Split(IndexText(t, icons), '\n') == Map(icons, IndexLineOf(t))
  {
    var lines := Map(icons, IndexLineOf(t));
    forall i | 0 <= i < |lines| ensures '\n' !in lines[i] {
      IndexLineSingle(t, icons[i]);
    }
    SplitJoin(lines, '\n');
  }

  /** The file names `getSVGs` produces stay on one line. */
  lemma FilenamesSingleLine(files: seq<TextFile>, parse: string -> Option<Svg>, camel: string -> string)
    ensures forall i :: 0 <= i < |GetSvgs(files, parse, camel)| ==> '\n' !in GetSvgs(files, parse, camel)[i].filename
  {
    var svgs := GetSvgs(files, parse, camel);
    forall i | 0 <= i < |svgs| ensures '\n' !in svgs[i].filename {
      var e := svgs[i];
      GetSvgsEntries(files, parse, camel, e);
      assert '\n' !in e.name;
      assert '\n' !in e.size;
      assert '\n' !in "-" && '\n' !in ".js";
    }
  }

  /** For the Lit and React targets, the index written after a run over the
      files found by the glob has exactly one line per icon loaded, in the
      order of the modules, each naming that module's file. */
  lemma IndexListsModules(t: Target, files: seq<TextFile>, parse: string -> Option<Svg>, camel: string -> string)
    requires t != VueTarget
    requires |GetSvgs(files, parse, camel)| >= 1
    ensures var svgs := GetSvgs(files, parse, camel);
      Split(IndexText(t, Map(svgs, ExportOf)), '\n') == Map(Map(svgs, ExportOf), IndexLineOf(t))
  {
    var svgs := GetSvgs(files, parse, camel);
    FilenamesSingleLine(files, parse, camel);
    IndexLinesRecovered(t, Map(svgs, ExportOf));
  }
}
