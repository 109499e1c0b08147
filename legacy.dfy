/** The loop the two legacy generators (generateElements.js, generateReact.js)
    share: every file the glob found is read; an empty file is skipped; a file
    whose path does not match the size/name pattern, or whose text has no
    `<svg>` element, throws inside the `try`, the error is logged and the loop
    goes on; any other file is written as a module into the target directory
    and `{ name, size, filename }` pushed onto the `icons` array. The write is
    inside the `try` too: when it throws (the target directory is missing, say)
    the error is logged and nothing is pushed. The index is then built from
    `icons`.

    Whether writing a path succeeds is the parameter `canWrite`. */
module Legacy {
  import opened Wrappers
  import opened Strings
  import opened Seqs
  import opened OutputUtil
  import GenerateElements
  import GenerateReact

  datatype LegacyTarget = LegacyLit | LegacyReact

  /** The record pushed for a written icon. */
  datatype LegacyIcon = LegacyIcon(name: string, size: string, filename: string)

  /** What became of one file: skipped (`if (!svg) return`), failed (the
      error caught and logged, whether it came from the match, the parse or
      the write), or written. */
  datatype Step = Skipped | Failed | Generated(icon: LegacyIcon, output: TextFile)

  /** The directory the modules and the index go to. */
  function OutDir(t: LegacyTarget): string {
    match t
    case LegacyLit => "./elements/"
    case LegacyReact => "./react/"
  }

  function ModuleText(t: LegacyTarget, name: string, size: string, svg: Svg, camel: string -> string): string {
    match t
    case LegacyLit => GenerateElements.ModuleText(name, size, svg, camel)
    case LegacyReact => GenerateReact.ModuleText(svg)
  }

  /** Where the module for `key` is written: `<dir><name>-<size>.js`. */
  function ModulePath(t: LegacyTarget, key: PathKey): string {
    OutDir(t) + (key.name + "-" + key.size + ".js")
  }

  /** One pass of the loop body over file `f`. */
  function Process(t: LegacyTarget, f: TextFile, parse: string -> Option<Svg>, canWrite: string -> bool, camel: string -> string): (r: Step)
    ensures r.Skipped? <==> f.content == ""
    ensures r.Failed? <==>
      f.content != "" && (GetNameAndSize(f.path).None? || parse(f.content).None?
                          || !canWrite(ModulePath(t, GetNameAndSize(f.path).value)))
    ensures r.Generated? ==>
      GetNameAndSize(f.path) == Some(PathKey(r.icon.size, r.icon.name)) && parse(f.content).Some?
      && r.icon.filename == r.icon.name + "-" + r.icon.size + ".js" && canWrite(r.output.path)
      && r.output == TextFile(OutDir(t) + r.icon.filename, ModuleText(t, r.icon.name, r.icon.size, parse(f.content).value, camel))
  {
    if f.content == "" then Skipped
    else
      match GetNameAndSize(f.path)
      case None => Failed
      case Some(key) =>
        match parse(f.content)
        case None => Failed
        case Some(svg) =>
          var filename := key.name + "-" + key.size + ".js";
          if !canWrite(ModulePath(t, key)) then Failed
          else
            Generated(LegacyIcon(key.name, key.size, filename),
                      TextFile(OutDir(t) + filename, ModuleText(t, key.name, key.size, svg, camel)))
  }

  // What each file contributes to the three logs.

  function IconOf(t: LegacyTarget, parse: string -> Option<Svg>, canWrite: string -> bool, camel: string -> string): TextFile -> Option<LegacyIcon> {
    (f: TextFile) => var s := Process(t, f, parse, canWrite, camel); if s.Generated? then Some(s.icon) else None
  }

  function ModuleOf(t: LegacyTarget, parse: string -> Option<Svg>, canWrite: string -> bool, camel: string -> string): TextFile -> Option<TextFile> {
    (f: TextFile) => var s := Process(t, f, parse, canWrite, camel); if s.Generated? then Some(s.output) else None
  }

  function FailureOf(t: LegacyTarget, parse: string -> Option<Svg>, canWrite: string -> bool, camel: string -> string): TextFile -> Option<string> {
    (f: TextFile) => if Process(t, f, parse, canWrite, camel).Failed? then Some(f.path) else None
  }

  function SkipOf(t: LegacyTarget, parse: string -> Option<Svg>, canWrite: string -> bool, camel: string -> string): TextFile -> Option<string> {
    (f: TextFile) => if Process(t, f, parse, canWrite, camel).Skipped? then Some(f.path) else None
  }

  /** The index line of a recorded icon. */
  function IndexLine(t: LegacyTarget, x: LegacyIcon, camel: string -> string): string {
    match t
    case LegacyLit => GenerateElements.IndexLine(x.filename)
    case LegacyReact => GenerateReact.IndexLine(x.name, x.size, x.filename, camel)
  }

  function IndexLineOf(t: LegacyTarget, camel: string -> string): LegacyIcon -> string {
    (x: LegacyIcon) => IndexLine(t, x, camel)
  }

  /** The index text: the lines joined by newlines. */
  function IndexText(t: LegacyTarget, icons: seq<LegacyIcon>, camel: string -> string): string {
    Join(Map(icons, IndexLineOf(t, camel)), "\n")
  }

  /** The state of one legacy script: the `icons` array, the files written
      and the paths of the files whose processing threw, each in order. */
  class LegacyGenerator {
    const target: LegacyTarget
    var icons: seq<LegacyIcon>
    var written: seq<TextFile>
    var errors: seq<string>

    constructor (target: LegacyTarget)
      ensures this.target == target && icons == [] && written == [] && errors == []
    {
      this.target := target;
      icons := [];
      written := [];
      errors := [];
    }

    /** The loop body for one file. */
    method GenerateFile(f: TextFile, parse: string -> Option<Svg>, canWrite: string -> bool, camel: string -> string)
      modifies this
      ensures icons == old(icons) + Kept(IconOf(target, parse, canWrite, camel)(f))
      ensures written == old(written) + Kept(ModuleOf(target, parse, canWrite, camel)(f))
      ensures errors == old(errors) + Kept(FailureOf(target, parse, canWrite, camel)(f))
    {
      if f.content == "" {
        return;
      }
      var key := GetNameAndSize(f.path);
      var svg := parse(f.content);
      if key.None? || svg.None? {
        errors := errors + [f.path];
        return;
      }
      var name, size := key.value.name, key.value.size;
      var filename := name + "-" + size + ".js";
      if !canWrite(ModulePath(target, key.value)) {
        errors := errors + [f.path];
        return;
      }
      written := written + [TextFile(OutDir(target) + filename, ModuleText(target, name, size, svg.value, camel))];
      icons := icons + [LegacyIcon(name, size, filename)];
    }

    /** `files.forEach(...)` */
    method GenerateAll(files: seq<TextFile>, parse: string -> Option<Svg>, canWrite: string -> bool, camel: string -> string)
      modifies this
      ensures icons == old(icons) + FilterMap(files, IconOf(target, parse, canWrite, camel))
      ensures written == old(written) + FilterMap(files, ModuleOf(target, parse, canWrite, camel))
      ensures errors == old(errors) + FilterMap(files, FailureOf(target, parse, canWrite, camel))
    {
      for n := 0 to |files|
        invariant icons == old(icons) + FilterMap(files[..n], IconOf(target, parse, canWrite, camel))
        invariant written == old(written) + FilterMap(files[..n], ModuleOf(target, parse, canWrite, camel))
        invariant errors == old(errors) + FilterMap(files[..n], FailureOf(target, parse, canWrite, camel))
      {
        FilterMapSnoc(files, n, IconOf(target, parse, canWrite, camel));
        FilterMapSnoc(files, n, ModuleOf(target, parse, canWrite, camel));
        FilterMapSnoc(files, n, FailureOf(target, parse, canWrite, camel));
        GenerateFile(files[n], parse, canWrite, camel);
        AppendAssoc(old(icons), FilterMap(files[..n], IconOf(target, parse, canWrite, camel)), Kept(IconOf(target, parse, canWrite, camel)(files[n])));
        AppendAssoc(old(written), FilterMap(files[..n], ModuleOf(target, parse, canWrite, camel)), Kept(ModuleOf(target, parse, canWrite, camel)(files[n])));
        AppendAssoc(old(errors), FilterMap(files[..n], FailureOf(target, parse, canWrite, camel)), Kept(FailureOf(target, parse, canWrite, camel)(files[n])));
      }
      assert files[..|files|] == files;
    }

    /** Writes the index from the recorded icons. */
    method WriteIndex(camel: string -> string)
      modifies this
      ensures icons == old(icons) && errors == old(errors)
      ensures written == old(written) + [TextFile(OutDir(target) + "index.js", IndexText(target, icons, camel))]
    {
      var indexFile := Join(Map(icons, IndexLineOf(target, camel)), "\n");
      written := written + [TextFile(OutDir(target) + "index.js", indexFile)];
    }
  }

  /** A whole run of a legacy script over the files the glob found: the files
      written (the modules, then the index) and the errors logged. */
  method RunLegacy(t: LegacyTarget, files: seq<TextFile>, parse: string -> Option<Svg>, canWrite: string -> bool, camel: string -> string)
    returns (written: seq<TextFile>, errors: seq<string>)
    ensures written == FilterMap(files, ModuleOf(t, parse, canWrite, camel))
      + [TextFile(OutDir(t) + "index.js", IndexText(t, FilterMap(files, IconOf(t, parse, canWrite, camel)), camel))]
    ensures errors == FilterMap(files, FailureOf(t, parse, canWrite, camel))
  {
    var g := new LegacyGenerator(t);
    g.GenerateAll(files, parse, canWrite, camel);
    assert g.target == t;
    assert g.icons == FilterMap(files, IconOf(t, parse, canWrite, camel));
    assert g.written == FilterMap(files, ModuleOf(t, parse, canWrite, camel));
    g.WriteIndex(camel);
    written, errors := g.written, g.errors;
  }

  /** Every file is exactly one of skipped, failed or written. */
  lemma {:induction false} StepsPartition(t: LegacyTarget, files: seq<TextFile>, parse: string -> Option<Svg>, canWrite: string -> bool, camel: string -> string)
    ensures |FilterMap(files, IconOf(t, parse, canWrite, camel))| + |FilterMap(files, FailureOf(t, parse, canWrite, camel))|
      + |FilterMap(files, SkipOf(t, parse, canWrite, camel))| == |files|
  {
    if files != [] {
      StepsPartition(t, files[..|files| - 1], parse, canWrite, camel);
    }
  }

  /** The n-th icon recorded is the n-th module written, and that module's
      path is the target directory followed by the icon's file name: the index
      names exactly the modules written, in the order they were written. */
  lemma {:induction false} IconsMatchModules(t: LegacyTarget, files: seq<TextFile>, parse: string -> Option<Svg>, canWrite: string -> bool, camel: string -> string)
    ensures |FilterMap(files, IconOf(t, parse, canWrite, camel))| == |FilterMap(files, ModuleOf(t, parse, canWrite, camel))|
    ensures forall i :: 0 <= i < |FilterMap(files, IconOf(t, parse, canWrite, camel))| ==>
      FilterMap(files, ModuleOf(t, parse, canWrite, camel))[i].path == OutDir(t) + FilterMap(files, IconOf(t, parse, canWrite, camel))[i].filename
  {
    if files != [] {
      var init := files[..|files| - 1];
      IconsMatchModules(t, init, parse, canWrite, camel);
      var icons, mods := FilterMap(init, IconOf(t, parse, canWrite, camel)), FilterMap(init, ModuleOf(t, parse, canWrite, camel));
      var s := Process(t, files[|files| - 1], parse, canWrite, camel);
      if s.Generated? {
        var icons', mods' := icons + [s.icon], mods + [s.output];
        assert FilterMap(files, IconOf(t, parse, canWrite, camel)) == icons';
        assert FilterMap(files, ModuleOf(t, parse, canWrite, camel)) == mods';
        forall i | 0 <= i < |icons'| ensures mods'[i].path == OutDir(t) + icons'[i].filename {
          if i < |icons| {
            assert mods'[i] == mods[i] && icons'[i] == icons[i];
          }
        }
      } else {
        assert FilterMap(files, IconOf(t, parse, canWrite, camel)) == icons;
        assert FilterMap(files, ModuleOf(t, parse, canWrite, camel)) == mods;
      }
    }
  }

  /** File `f` is written and recorded as `x`: it is not empty, its text
      parses, its path gives `x`'s size and name, `x`'s file name is
      `<name>-<size>.js`, and writing it into the target directory succeeds. */
  predicate Records(t: LegacyTarget, f: TextFile, parse: string -> Option<Svg>, canWrite: string -> bool, x: LegacyIcon) {
    f.content != "" && parse(f.content).Some?
    && GetNameAndSize(f.path) == Some(PathKey(x.size, x.name))
    && x.filename == x.name + "-" + x.size + ".js"
    && canWrite(ModulePath(t, PathKey(x.size, x.name)))
  }

  lemma IconOfRecords(t: LegacyTarget, f: TextFile, parse: string -> Option<Svg>, canWrite: string -> bool, camel: string -> string, x: LegacyIcon)
    ensures IconOf(t, parse, canWrite, camel)(f) == Some(x) <==> Records(t, f, parse, canWrite, x)
  {
  }

  /** The recorded icons are exactly those of the files that record them. */
  lemma IconsRecorded(t: LegacyTarget, files: seq<TextFile>, parse: string -> Option<Svg>, canWrite: string -> bool, camel: string -> string, x: LegacyIcon)
    ensures x in FilterMap(files, IconOf(t, parse, canWrite, camel)) <==> exists i :: 0 <= i < |files| && Records(t, files[i], parse, canWrite, x)
  {
    FilterMapMember(files, IconOf(t, parse, canWrite, camel), x);
    forall i | 0 <= i < |files| ensures IconOf(t, parse, canWrite, camel)(files[i]) == Some(x) <==> Records(t, files[i], parse, canWrite, x) {
      IconOfRecords(t, files[i], parse, canWrite, camel, x);
    }
  }

  /** Files are processed in order: the icons of `a + b` are those of `a`
      followed by those of `b`, and so are the lines of the index. */
  lemma IconsInOrder(t: LegacyTarget, a: seq<TextFile>, b: seq<TextFile>, parse: string -> Option<Svg>, canWrite: string -> bool, camel: string -> string)
    ensures FilterMap(a + b, IconOf(t, parse, canWrite, camel)) == FilterMap(a, IconOf(t, parse, canWrite, camel)) + FilterMap(b, IconOf(t, parse, canWrite, camel))
  {
    FilterMapAppend(a, b, IconOf(t, parse, canWrite, camel));
  }

  lemma IndexLineSingle(t: LegacyTarget, x: LegacyIcon, camel: string -> string)
    requires '\n' !in x.filename
    requires t == LegacyReact ==> '\n' !in GenerateElements.ClassName(x.name, x.size, camel)
    ensures '\n' !in IndexLine(t, x, camel)
  {
    match t
    case LegacyLit =>
      assert '\n' !in "import from './" && '\n' !in "'";
    case LegacyReact =>
      assert '\n' !in "export { default as " && '\n' !in " } from './" && '\n' !in "'";
  }

  /** The index has one line per recorded icon, in order: splitting it at
      newlines gives the lines back, when no file name (and, for React, no
      class name) holds a newline. */
  lemma IndexLinesRecovered(t: LegacyTarget, icons: seq<LegacyIcon>, camel: string -> string)
    requires |icons| >= 1
    requires forall i :: 0 <= i < |icons| ==> '\n' !in icons[i].filename
    requires t == LegacyReact ==> forall i :: 0 <= i < |icons| ==> '\n' !in GenerateElements.ClassName(icons[i].name, icons[i].size, camel)
    ensures Split(IndexText(t, icons, camel), '\n') == Map(icons, IndexLineOf(t, camel))
  {
    var lines := Map(icons, IndexLineOf(t, camel));
    forall i | 0 <= i < |lines| ensures '\n' !in lines[i] {
      IndexLineSingle(t, icons[i], camel);
    }
    SplitJoin(lines, '\n');
  }

  /** Recorded file names stay on one line. */
  lemma FilenamesSingleLine(t: LegacyTarget, files: seq<TextFile>, parse: string -> Option<Svg>, canWrite: string -> bool, camel: string -> string)
    ensures var icons := FilterMap(files, IconOf(t, parse, canWrite, camel));
      forall i :: 0 <= i < |icons| ==> '\n' !in icons[i].filename
  {
    var icons := FilterMap(files, IconOf(t, parse, canWrite, camel));
    forall i | 0 <= i < |icons| ensures '\n' !in icons[i].filename {
      var x := icons[i];
      IconsRecorded(t, files, parse, canWrite, camel, x);
      var j :| 0 <= j < |files| && Records(t, files[j], parse, canWrite, x);
      RecordSingleLine(t, files[j], parse, canWrite, x);
    }
  }

  lemma RecordSingleLine(t: LegacyTarget, f: TextFile, parse: string -> Option<Svg>, canWrite: string -> bool, x: LegacyIcon)
    requires Records(t, f, parse, canWrite, x)
    ensures '\n' !in x.filename
  {
    assert '\n' !in x.name && '\n' !in x.size;
    assert '\n' !in "-" && '\n' !in ".js";
  }
}
