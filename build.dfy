/** scripts/build.js: every raw SVG is optimised and written below the
    distribution directory, under the same size directory and file name. The
    size is the last segment of the file's directory (`getIconSize`, which
    preview/render.js defines identically). */
module Build {
  import opened Strings
  import opened NodePath

  /** `getIconSize`: the last `/`-separated segment of `path.dirname`. */
  function GetIconSize(filePath: string): (r: string)
    ensures '/' !in r
    ensures '/' !in Dirname(filePath) ==> r == Dirname(filePath)
    ensures EndsWith(Dirname(filePath), r)
    ensures LastAfterSeparator(Dirname(filePath), '/', r)
  {
    var dirs := Split(Dirname(filePath), '/');
    SplitLast(Dirname(filePath), '/');
    Last(dirs)
  }

  /** Where the optimised icon goes: `path.join(distDir, iconSize, fileName)`. */
  function OutputPath(distDir: string, filePath: string): string {
    distDir + "/" + GetIconSize(filePath) + "/" + Basename(filePath)
  }

  /** The size of an icon at `<dir>/<size>/<file>` is `size`. */
  lemma IconSizeOfIconPath(dir: string, size: string, file: string)
    requires size != "" && '/' !in size
    requires file != "" && '/' !in file
    ensures GetIconSize(dir + "/" + size + "/" + file) == size
  {
    var d := dir + "/" + size;
    assert d + "/" + file == dir + "/" + size + "/" + file;
    DirnameOfChild(d, file);
    assert d == dir + ['/'] + size;
    SplitSnoc(dir, '/', size);
  }

  /** An icon below the source directory keeps its size directory and file
      name in the distribution directory. */
  lemma OutputKeepsSizeAndName(distDir: string, srcDir: string, size: string, file: string)
    requires size != "" && '/' !in size
    requires file != "" && '/' !in file
    ensures OutputPath(distDir, srcDir + "/" + size + "/" + file) == distDir + "/" + size + "/" + file
  {
    IconSizeOfIconPath(srcDir, size, file);
    assert srcDir + "/" + size + "/" + file == (srcDir + "/" + size) + "/" + file;
    BasenameOfChild(srcDir + "/" + size, file);
  }

  /** Building again from the distribution directory would not move an icon:
      its output path already has the size and the name it came with. */
  lemma OutputPathStable(distDir: string, srcDir: string, size: string, file: string)
    requires size != "" && '/' !in size
    requires file != "" && '/' !in file
    ensures var out := OutputPath(distDir, srcDir + "/" + size + "/" + file);
      GetIconSize(out) == size && Basename(out) == file && OutputPath(distDir, out) == out
  {
    OutputKeepsSizeAndName(distDir, srcDir, size, file);
    OutputKeepsSizeAndName(distDir, distDir, size, file);
    IconSizeOfIconPath(distDir, size, file);
    assert distDir + "/" + size + "/" + file == (distDir + "/" + size) + "/" + file;
    BasenameOfChild(distDir + "/" + size, file);
  }
}
