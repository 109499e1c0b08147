# Fabric icons: a verified model of the naming and code-generation core

The icon repository keeps raw SVG icons under `raw/<size>/<name>.svg`. The
build optimises them into `dist/<size>/<name>.svg`. Generator scripts then
turn every SVG into a Lit custom element, a React component or a Vue
component, each with an index file. Two import scripts fetch the icons from
Figma: one works from the component list, the other from a canvas of the
document.

This project models, in Dafny, the parts of those scripts that decide names
and text:

- which Figma components and nodes become icons, and what they are called;
- how an icon name splits into a size and a name, and where a download goes;
- the sorted, duplicate-free index of icon names;
- the warning about local icons that Figma no longer has;
- the path regex that recovers size and name from an SVG path, and the file
  and export names derived from them;
- the module templates of the three current emitters and the two legacy
  generators, with their attribute lists and index files;
- the loops that write one module per icon and record it for the index;
- the size directory `getIconSize` reads, the output path of the build, and
  the preview's grouping of icons by size.

The modules follow the scripts:

- `Naming` holds `sizeAndName`, which both import scripts define
  identically, and the download guard.
- `Import` models scripts/import.js and `FigmaImport` models
  scripts/figma-import.js.
- `OutputUtil` models scripts/output/util.js.
- `Elements`, `React` and `Vue` hold the templates of scripts/output/*.js.
  `OutputScripts` holds their shared `forEach` loop, as the class `Emitter`.
- `GenerateElements` and `GenerateReact` hold the legacy templates.
  `Legacy` holds the legacy `forEach` loop with its `try`/`catch`, as the
  class `LegacyGenerator`.
- `Build` models scripts/build.js and `Preview` models preview/render.js.
- `NodePath` models Node's POSIX `dirname`, `basename` and `parse().name`.
- `Strings`, `Seqs`, `Sorting` and `Wrappers` are general helpers.

Modelling choices:

- Module-level arrays that the scripts push to become `seq` fields of a
  class: `downloadedIcons`, `icons`, the files written, the errors logged.
  The methods that change them state the new contents in terms of functions
  of the input.
- A JavaScript exception that ends a script, such as a `TypeError` or a
  failed regex match, is an `Option` of `None`. An exception caught inside a
  loop drops that file, or logs its path.
- The `camelcase` and `slugify` packages, the DOM parser and
  `localeCompare` are parameters. The comparator is only assumed to be a
  total order.
- The regex `/(?<size>\d+)\/(?<name>.*).svg/` is modelled exactly:
  - the match starts at the leftmost possible position;
  - `\d+` and `.*` are greedy;
  - `.` matches no line terminator;
  - the character before `svg` is any character but a line terminator.
- index.js exports `__dirname` but no `basedir`, although scripts/import.js
  imports `basedir` from it. The repository root is therefore a parameter
  (`basedir`) wherever it appears. For scripts/figma-import.js the root is
  `__dirname + "/.."`.
- As shipped, scripts/import.js therefore fails when its ES module is linked,
  because index.js provides no export named `basedir`. The script never runs.
  The `Import` module models the evidently intended script, with `basedir`
  as the repository root.

## Model

| member | source | states |
|---|---|---|
| `Naming.SizeAndName` | scripts/import.js:227-235 | The size is the text before the first `-` and holds no `-`. With no `-`, the size is the whole input and the name is empty. Otherwise the name is the lower-cased text after the first `-`, inner hyphens kept. |
| `Naming.RawIconPath` | scripts/import.js:177-183 | No path exactly when the name part is empty: there is no hyphen, or the first hyphen is the last character. |
| `Naming.NameIsLowerCase` | scripts/import.js:232 | The name part never holds an ASCII capital letter. |
| `Naming.ToLowerKeepsLines` | scripts/import.js:232 | Lower-casing adds no line terminator. |
| `Naming.SizeAndNameSingleLine` | scripts/import.js:228-232 | Neither part of a single-line icon name holds a line terminator. |
| `Import.Accepted` | scripts/import.js:189-207 | The `poorlyNamedIcons` filter, as a definition. `FrameRule`, `SingleNameRule` and `SingleNameNeedsDigits` state its cases. |
| `Import.FrameRule` | scripts/import.js:193-206 | A digit in the frame name rejects a component, whatever its own name. A digit-free frame and `Size` in the name always accept it. |
| `Import.SecondSegment` | scripts/import.js:200 | The second `/`-segment of `x/y` is `y`, for slash-free `x` and `y`. |
| `Import.SingleNameRule` | scripts/import.js:197-205 | Take a digit-free frame and a name `<prefix>/<segment>` without `Size`, whose prefix ends in two digits. The component is accepted exactly when the segment has no digit, so `16/chevron-down` passes and `16/chevron2` does not. |
| `Import.SingleNameNeedsDigits` | scripts/import.js:198-199 | Under a digit-free frame, a name without `Size` and without two digits followed by `/` is rejected. |
| `Import.GroupName` | scripts/import.js:208-209 | The name of a component in a named frame, as a definition: `Size=` removed once, then `-` and the slug of the frame name. `ProcessComponentsMembers` states where it is used. |
| `Import.SingleName` | scripts/import.js:210 | The name of any other component, as a definition: the slug of its own name. `ProcessComponentsMembers` states where it is used. |
| `Import.IconName` | scripts/import.js:220 | The choice between the two names, as a definition: the group name exactly when the frame has a non-empty name. `Step` and `ProcessComponentsMembers` state the result. |
| `Import.Step` | scripts/import.js:218-221 | Per component: dropped exactly when rejected; throws exactly when accepted without a containing frame. Otherwise it is kept as its node id and its name. |
| `Import.ProcessComponents` | scripts/import.js:216-222 | The run fails exactly when some accepted component has no containing frame. |
| `Import.ProcessComponentsMembers` | scripts/import.js:218-221 | The icons are exactly the accepted components, each as its node id and its name. The name is `Size=` removed once, then `-` and the frame slug, when the frame has a name; otherwise it is the slug of the component's name. |
| `Import.ProcessComponentsAppend` | scripts/import.js:218 | Order is kept: the icons of `a + b` are those of `a`, then those of `b`. The run fails when either part fails. |
| `Import.ProcessIconNames` | scripts/import.js:254-260 | `processIconNames`, as a definition: the suffixes, deduplicated and sorted, with `undefined` last. `ProcessIconNamesOrdered`, `ProcessIconNamesMembers` and `ProcessIconNamesUndefined` state its properties. |
| `Import.Suffix` | scripts/import.js:257 | No suffix exactly when the name has no `-`. Otherwise the name is the size part, `-`, then the suffix, and `sizeAndName`'s name is the lower-cased suffix. |
| `Import.NamedSuffixesMember` | scripts/import.js:255-258 | After deduplication, the strings are exactly the suffixes of the icon names. |
| `Import.ProcessIconNamesOrdered` | scripts/import.js:253-260 | The index has no duplicates. Its strings are in comparator order. `undefined` can only be last. |
| `Import.DefinedThenUndefined` | scripts/import.js:259 | A sorted duplicate-free list of strings followed by at most one `undefined` is duplicate-free and ordered. `undefined` is only at the end. |
| `Import.ProcessIconNamesMembers` | scripts/import.js:254-258 | A string is in the index exactly when it is the suffix of some icon name. |
| `Import.ProcessIconNamesUndefined` | scripts/import.js:257-259 | `undefined` is in the index exactly when some icon name has no hyphen. |
| `Import.DownloadKey` | scripts/import.js:177-184 | No key is pushed exactly when the name part is empty. |
| `Import.Importer.constructor` | scripts/import.js:13 | `downloadedIcons` starts empty, and nothing is written yet. |
| `Import.Importer.DownloadSvgIcon` | scripts/import.js:171-187 | An empty name part changes nothing. Otherwise one key `size+name` is appended, and one file `<root>/raw/<size>/<name>.svg` holding the fetched text. |
| `Import.Importer.DownloadAll` | scripts/import.js:101-110 | After the downloads, in completion order, the keys and files are those of the icons with a non-empty name part, in that order. |
| `Import.DownloadStep` | scripts/import.js:181-184 | One download adds a key and a file exactly when the name part is non-empty. |
| `Import.ExistingKeys` | scripts/import.js:12 | One key `size+name` per local SVG path, in order. The module fails to load exactly when some path does not match the regex. |
| `Import.AnyMissing` | scripts/import.js:116-117 | The warning fires exactly when some local key is not among the downloaded keys. |
| `Import.WarningIgnoresCompletionOrder` | scripts/import.js:101-117 | Any completion order of the same downloads gives the same warning. |
| `Import.RawDirNoDigitSlash` | scripts/import.js:183 | A root with no digit followed by `/`, and not ending in a digit, keeps both properties after `/raw/` is appended. |
| `Import.DownloadRoundTrip` | scripts/import.js:183-184 | Take a root without digit-slash, a numeric size and a single-line name. The regex recovers, from the written path, exactly the key that was pushed. |
| `FigmaImport.IsIconNode` | scripts/figma-import.js:186-191 | `isIconNode`, as a definition: the name starts with `16x16-`, `24x24-` or `32x32-`. `PrefixHyphen`, `IconNodeSizeAndName` and `IconNodeDownloaded` state what follows from it. |
| `FigmaImport.FindChild` | scripts/figma-import.js:175 | Gives the first child with the id, or nothing exactly when no child has it. |
| `FigmaImport.Canvas` | scripts/figma-import.js:175 | The canvas found is the first child of the document with id `31:2`. There is none exactly when no child has that id. |
| `FigmaImport.FilterIcons` | scripts/figma-import.js:173-181 | It throws exactly when no document child has id `31:2`. It never gives more icons than the canvas has children. |
| `FigmaImport.FilterIconsMembers` | scripts/figma-import.js:176-178 | The records are exactly the canvas children that pass `isIconNode`, with their id and name. |
| `FigmaImport.FilterIconsOrder` | scripts/figma-import.js:176-178 | Filtering keeps the children's order. |
| `FigmaImport.PrefixHyphen` | scripts/figma-import.js:188 | A name with a size prefix has its first hyphen at position 5, after the prefix's size. |
| `FigmaImport.IconNodeSizeAndName` | scripts/figma-import.js:186-204 | For an icon node, the size is `16x16`, `24x24` or `32x32`, and the name has no capital. |
| `FigmaImport.IconNodeDownloaded` | scripts/figma-import.js:157-163 | An icon node is skipped exactly when its name is only its size prefix. |
| `OutputUtil.NameEnd` | scripts/output/util.js:9 | Gives the greedy end of `(?<name>.*).svg` after the slash, or nothing when none fits. |
| `OutputUtil.MatchUsesWholeRun` | scripts/output/util.js:9 | A match takes the whole digit run from its start. |
| `OutputUtil.MatchFrom` | scripts/output/util.js:9 | Gives the leftmost match at or after a position, with the greedy name. No match exactly when none exists. |
| `OutputUtil.GetNameAndSize` | scripts/output/util.js:9-10 | The groups of the match `MatchFrom` finds from the start: the leftmost one, with the longest name after its slash. A result exists exactly when such a match does. The size is a non-empty run of digits, and the name holds no line terminator. |
| `OutputUtil.GetNameAndSizeLeftmost` | scripts/output/util.js:9-10 | `/srv/v2/raw/16/a.svg` gives size `2` and name `raw/16/a`: a digit followed by `/` earlier in the root wins over the size directory. |
| `OutputUtil.GetNameAndSizeFails` | scripts/output/util.js:10 | It throws exactly when the regex matches nowhere in the path. |
| `OutputUtil.NoMatchInPrefix` | scripts/output/util.js:9 | No match starts in a prefix that has no digit followed by `/` and does not end in a digit, when a digit follows it. |
| `OutputUtil.GetNameAndSizeOfIconPath` | scripts/output/util.js:9-10 | For `<prefix><digits>/<name>.svg` with no earlier digit-slash, the size is the digits and the name is `<name>`. |
| `OutputUtil.Capitalize` | scripts/output/util.js:11 | Upper-cases the first character only, keeps the rest, and maps `""` to `""`. |
| `OutputUtil.FilenameKey` | scripts/output/util.js:13-16 | The file name is `<name>-<size>.js`. Its last hyphen separates the name from the size, because a size holds no hyphen. |
| `OutputUtil.FilenamesDistinct` | scripts/output/util.js:13-16 | Two keys with numeric sizes that give the same file name are the same key: no two different keys share a module file. |
| `OutputUtil.PascalCase` | scripts/output/util.js:12 | `pascalCase`, as a definition: `Capitalize` applied to the `camelcase` parameter's result. `GetSvgsEntries` states the export names built with it. |
| `OutputUtil.GetNames` | scripts/output/util.js:13-16 | `getNames`, as a definition. `FilenameKey`, `FilenamesDistinct` and `GetSvgsEntries` state its properties. |
| `OutputUtil.AttrPair` | scripts/output/elements.js:12 | One attribute rendered as `<name>: '<value>'`, as a definition. `AttrListSnoc` states how the list is built from it. |
| `OutputUtil.AttrList` | scripts/output/elements.js:21 | `attrs.join(', ')`, as a definition. `AttrListSnoc` states its shape. |
| `OutputUtil.AttrListSnoc` | scripts/output/elements.js:12 | Each attribute renders as `<name>: '<value>'`. They appear in attribute order, joined by `, `. |
| `OutputUtil.LoadIcon` | scripts/output/util.js:19-25 | A file is dropped when its path does not match. A kept icon has the path's size and name, the parsed SVG, and the names `getNames` gives. |
| `OutputUtil.GetSvgs` | scripts/output/util.js:19-26 | Never more icons than files. `GetSvgsAppend`, `GetSvgsSingle` and `GetSvgsEntries` state which icons it keeps and in what order. |
| `OutputUtil.GetSvgsAppend` | scripts/output/util.js:19-26 | Files are handled one by one, so retained icons keep their relative order. |
| `OutputUtil.GetSvgsSingle` | scripts/output/util.js:21-26 | A file gives one icon when it loads and none otherwise. A non-matching path gives none. |
| `OutputUtil.GetSvgsEntries` | scripts/output/util.js:13-24 | Every icon comes from some file. It has numeric size, a single-line name, file name `name-size.js`, and export name `pascalCase("icon-"+name+size)`. |
| `Elements.ModuleLines` | scripts/output/elements.js:14-31 | The Lit template has sixteen lines. |
| `Elements.ModuleText` | scripts/output/elements.js:14-31 | The Lit module as the template lines joined by newlines, as a definition. `MarkupSpliced` and `ModuleLinesRecovered` state its shape. |
| `Elements.MarkupSpliced` | scripts/output/elements.js:14-31 | The inner markup is spliced in verbatim. The text before it depends only on the class name, and the text after it does not depend on the markup. |
| `Elements.ModuleLinesRecovered` | scripts/output/elements.js:14-31 | When the parts are single-line, splitting the module at newlines gives back exactly the template lines. |
| `Elements.ClassAndTag` | scripts/output/elements.js:13-29 | The class is the export name. The tag `f-icon-<name><size>` is registered under it. |
| `React.ModuleLines` | scripts/output/react.js:13-16 | The two lines of the React module, as a definition. `ExportsComponent` and `ModuleLinesRecovered` state their shape. |
| `React.MarkupSpliced` | scripts/output/react.js:13-16 | The module is the import line, a newline, and the component, with the markup verbatim inside `__html: '…'`. |
| `React.ExportsComponent` | scripts/output/react.js:15 | The second line starts with `export const <exportName> = (attrs) => `. |
| `React.ModuleLinesRecovered` | scripts/output/react.js:13-16 | With single-line parts, the module is exactly two lines. |
| `Vue.ModuleLines` | scripts/output/vue.js:13-16 | The two lines of the Vue module, as a definition. `MarkupSpliced` and `ModuleLinesRecovered` state their shape. |
| `Vue.MarkupSpliced` | scripts/output/vue.js:13-16 | The module is `import { h } from 'vue'`, a newline, and the default export, with the markup verbatim in `innerHTML: '…'`. |
| `Vue.ModuleLinesRecovered` | scripts/output/vue.js:13-16 | With single-line parts, the module is exactly two lines. |
| `OutputScripts.ModuleText` | scripts/output/elements.js:14-31 | The module text of each target, as a definition: the Lit, React or Vue template. |
| `OutputScripts.IndexText` | scripts/output/elements.js:40 | The index of each target, as a definition: the records' lines joined by `\n`. `IndexLinesRecovered` states that splitting it gives back one line per record. |
| `OutputScripts.Emitter.constructor` | scripts/output/elements.js:7-8 | `icons` starts empty, in the given target directory. |
| `OutputScripts.Emitter.EmitIcon` | scripts/output/elements.js:11-36 | It succeeds exactly when writing `basepath + filename` succeeds. Then it appends that module and one record `{ exportName, filename }`; otherwise nothing changes. |
| `OutputScripts.Emitter.EmitAll` | scripts/output/elements.js:11-37 | The loop stops at the first module write that throws. Up to that point, `icons` gains one record per `getSVGs` result and the modules are written, both in that order. It succeeds exactly when no write throws. |
| `OutputScripts.Emitter.WriteIndex` | scripts/output/elements.js:40-42 | The index file is the records' lines joined by `\n`, with no trailing newline, appended exactly when writing `index.js` succeeds. The records are unchanged. |
| `OutputScripts.RunScript` | scripts/output/elements.js:11-42 | A module write that throws ends the run: only the modules before it are on disk, and there is no count and no index. Otherwise the reported count is the number of module files written, and the files are the modules in order, then the index if its write succeeds. |
| `OutputScripts.WrittenCount` | scripts/output/elements.js:11-37 | The number of modules written before the first write that throws. Every earlier write succeeds, and the next one, if any, throws. |
| `OutputScripts.WrittenCountAll` | scripts/output/elements.js:34-35 | Every module is written exactly when no module write throws. |
| `OutputScripts.IndexLineSingle` | scripts/output/vue.js:23 | An index line holds no newline when the file name, and for Vue the export name, hold none. |
| `OutputScripts.IndexLinesRecovered` | scripts/output/elements.js:40 | The index has one line per icon, in order: Lit `export * from './f';`, React `export * from './f'`, Vue `export { default as E } from './f'`. |
| `OutputScripts.FilenamesSingleLine` | scripts/output/util.js:14 | The file names `getSVGs` produces hold no newline. |
| `OutputScripts.IndexListsModules` | scripts/output/elements.js:36-40 | For Lit and React, the index over the glob's files has exactly one line per loaded icon, in module order. |
| `GenerateElements.ClassName` | generateElements.js:23 | The class name ends with the size, appended after case conversion. Its length is the camel-cased name's plus the size's. |
| `GenerateElements.ModuleLines` | generateElements.js:25-40 | The legacy Lit template has fourteen lines. |
| `GenerateElements.MarkupSpliced` | generateElements.js:25-40 | The markup is spliced in verbatim after the two imports. The text after it does not depend on it. |
| `GenerateElements.ModuleLinesRecovered` | generateElements.js:25-40 | With single-line parts, splitting the module gives back exactly the fourteen lines. |
| `GenerateElements.ClassAndTag` | generateElements.js:29-38 | The class is declared under the class name. The tag `f-icon-<name><size>` is registered under it. |
| `GenerateReact.ModuleLines` | generateReact.js:22-29 | The legacy React module has two lines. |
| `GenerateReact.MarkupSpliced` | generateReact.js:22-29 | The markup is spliced in verbatim inside `__html: '…'`, after the rendered attributes. |
| `GenerateReact.ExportsDefault` | generateReact.js:24 | The second line starts with `export default (attrs) => `. |
| `GenerateReact.ModuleLinesRecovered` | generateReact.js:22-29 | With single-line parts, the module is exactly two lines. |
| `Legacy.Process` | generateElements.js:12-47 | An empty file is skipped before any parsing. It fails exactly when it is non-empty and its path does not match, it has no `<svg>`, or writing `<dir><name>-<size>.js` throws. Otherwise it writes that file with the target's template. |
| `Legacy.LegacyGenerator.constructor` | generateElements.js:6 | `icons` starts empty. |
| `Legacy.LegacyGenerator.GenerateFile` | generateElements.js:11-47 | One file adds at most one module and one record, or one logged error. A write that throws logs the error and records nothing. |
| `Legacy.LegacyGenerator.GenerateAll` | generateElements.js:11-48 | The loop never aborts. The records, modules and errors are those of the files, in file order. |
| `Legacy.LegacyGenerator.WriteIndex` | generateElements.js:50-56 | The index is the records' lines joined by `\n`, written after the modules. |
| `Legacy.RunLegacy` | generateReact.js:10-47 | A whole run writes the modules in order, then the index, and logs one error per failed file. |
| `Legacy.StepsPartition` | generateElements.js:13-47 | Every file is exactly one of skipped, failed or written. |
| `Legacy.IconsMatchModules` | generateElements.js:41-55 | The n-th record names the n-th module written, so the index names exactly the written modules, in order. |
| `Legacy.IconOfRecords` | generateElements.js:13-44 | A file gives a record exactly when it is non-empty, parses and matches, and writing its module succeeds. The record has the path's name and size, and file name `<name>-<size>.js`. |
| `Legacy.IconsRecorded` | generateElements.js:13-44 | The records are exactly those of the files that produce them. |
| `Legacy.IconsInOrder` | generateElements.js:44-55 | The records of `a + b` are those of `a`, then those of `b`. |
| `Legacy.IndexText` | generateElements.js:50-55 | The legacy index, as a definition: the records' lines joined by `\n`. `IndexLinesRecovered` states that splitting it gives back one line per record. |
| `Legacy.IndexLineSingle` | generateReact.js:39-45 | An index line holds no newline when the file name, and for React the class name, hold none. |
| `Legacy.IndexLinesRecovered` | generateReact.js:39-46 | The index has one line per record, in order: `import from './f'` for Lit, `export { default as C } from './f'` for React. |
| `Legacy.FilenamesSingleLine` | generateElements.js:41 | Recorded file names hold no newline. |
| `Build.GetIconSize` | scripts/build.js:82-86 | The text after the last `/` of the directory: a suffix of it, holding no `/`, with a `/` just before it unless it is the whole directory. |
| `Build.OutputPath` | scripts/build.js:51-57 | `path.join(DIST_DIR, iconSize, fileName)` without normalisation, as a definition. `OutputKeepsSizeAndName` and `OutputPathStable` state its properties. |
| `Build.IconSizeOfIconPath` | scripts/build.js:82-86 | For `<dir>/<size>/<file>`, the size is `<size>`; for example `<SRC>/16/x.svg` gives `16`. |
| `Build.OutputKeepsSizeAndName` | scripts/build.js:51-57 | The output path is the distribution directory, the size and the unchanged file name. |
| `Build.OutputPathStable` | scripts/build.js:51-57 | The output path has the same size and file name, and building from it again changes nothing. |
| `Preview.MakeIcon` | preview/render.js:11-15 | The record of one path, as a definition. `MakeIconOfIconPath` states its value for an icon path. |
| `Preview.Icons` | preview/render.js:8-16 | One record per SVG path, in order. |
| `Preview.MakeIconOfIconPath` | preview/render.js:11-15 | For `<dir>/<size>/<stem>.svg`, the name is `stem` and the size is `size`. |
| `Preview.OfSize` | preview/render.js:19-24 | The icons of one size, in order. It never holds more icons than there are. `OfSizeMember`, `OfSizeAppend` and `NoEmptyGroup` state its properties. |
| `Preview.GroupBySize` | preview/render.js:19-24 | The keys are exactly the sizes present. Each group holds that size's icons in order. Each icon is in the group of its own size and no other. No group is empty. |
| `Preview.OfSizeMember` | preview/render.js:20-23 | An icon is in the group of size `k` exactly when it is one of the icons and has size `k`. |
| `Preview.OfSizeAppend` | preview/render.js:20-23 | Grouping keeps the icons' relative order. |
| `Preview.NoEmptyGroup` | preview/render.js:21-23 | Every size present has a non-empty group. |
| `Preview.GroupsCoverIcons` | preview/render.js:19-24 | Over any duplicate-free list of the sizes, the group lengths add up to the number of icons. |

## Left out

- Figma HTTP requests, the token file, prompts and spinners are not modelled.
  Downloaded SVG text is an input.
- The concurrent downloads are not modelled. They are given as one completion
  order, and the warning is proved independent of it. The shared progress
  counter is not modelled.
- `icons.find` by id in the import script's `main` is not modelled. The
  downloads are given as (icon name, SVG text) pairs.
- SVGO optimisation, `nanoid`, `printProfitInfo` (floating point) and the
  file contents the build writes are out of scope. Only output paths are
  modelled.
- DOM parsing (JSDOM, happy-dom) is a parameter giving the attributes and
  inner HTML, or nothing when there is no `<svg>` element.
- `camelcase`, `slugify` and `localeCompare` are parameters. The comparator
  is assumed to be a total order, and no locale behaviour is claimed.
- Case mapping is ASCII-only. `toLowerCase` and `toUpperCase` on non-ASCII
  letters are not modelled.
- `path.join` normalisation is not modelled. Paths are built by
  concatenating with `/`.
- The glob's enumeration order is an input sequence. File writes are an
  append-only log, so overwriting on disk is not modelled. Two globbed paths
  with the same key, such as `dist/16/a.svg` and `dist/x16/a.svg`, both give
  the module `a-16.js`. On disk the second write replaces the first, but the
  model lists both writes and both index lines.
- Whether a legacy module write succeeds is the parameter `canWrite`. The
  legacy scripts create no directory, so a name with a `/`, or a missing
  `./elements/` or `./react/`, makes the write throw.
- `Legacy.LegacyGenerator.WriteIndex`: the index write is outside the `try`.
  If it threw, the script would end there, with no index written. The model
  always appends the index.
- In the scripts under scripts/output/ no write is inside a `try`, and
  `mkdirSync` creates only the base directory. A file name holding `/`,
  such as `raw/16/a-2.js` from `/srv/v2/raw/16/a.svg`, makes its write throw
  and ends the script. Whether a write succeeds is the parameter `canWrite`;
  the reason a write fails is not modelled.
- `GenerateElements.ClassName` is stated in terms of the `camelcase`
  parameter only; nothing is claimed about that package's output.
- `Preview.GroupBySize` returns a map, so the key order of a JavaScript
  object is not modelled. Keys such as `__proto__` or `constructor` that
  collide with `Object.prototype` are not modelled either.
- The nunjucks rendering of the preview page, the bundler configurations, and
  the `iconsPath` constant of index.js are not part of this model.
- Console output (chalk logs, `DISCARDING`, `Skipping:`) is not modelled,
  except that the legacy generators record the path of each file whose
  processing threw.
- `OutputScripts.IndexListsModules` covers the Lit and React targets only.
  For Vue, the export names come from `camelcase` and are unconstrained;
  `OutputScripts.IndexLinesRecovered` requires them free of newlines.
