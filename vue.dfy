/** scripts/output/vue.js: the two-line Vue functional component written for
    each icon, and the line the index file gives it. */
module Vue {
  import opened Strings
  import opened OutputUtil

  // The fixed parts of the template (vue.js:13-16).
  const Import: string := "import { h } from 'vue'"
  const RenderOpen: string := "export default (_, { attrs }) => " + "h('svg', { "
  const HtmlOpen: string := ", innerHTML: '"
  const HtmlClose: string := "', ...attrs })"

  /** The text of the second line before the markup: it depends on the
      attributes only. */
  function RenderHead(attrs: seq<Attr>): string {
    RenderOpen + AttrList(attrs) + HtmlOpen
  }

  /** The module's two lines. */
  function ModuleLines(e: IconEntry): seq<string> {
    [Import, RenderHead(e.svg.attrs) + e.svg.html + HtmlClose]
  }

  function ModuleText(e: IconEntry): string {
    Join(ModuleLines(e), "\n")
  }

  /** `export { default as <exportName> } from './<filename>'` */
  function IndexLine(x: IconExport): string {
    "export { default as " + x.exportName + " } from './" + x.filename + "'"
  }

  /** The module is the import of `h`, then the default export, whose markup
      is spliced in verbatim into `innerHTML` after a text that does not
      depend on it. */
  lemma MarkupSpliced(e: IconEntry)
    ensures ModuleText(e) == Import + "\n" + RenderHead(e.svg.attrs) + e.svg.html + HtmlClose
  {
    JoinTwo(Import, RenderHead(e.svg.attrs) + e.svg.html + HtmlClose, "\n");
  }

  // Helpers for `ModuleLinesRecovered`: the fixed text of the template holds
  // no newline.

  lemma ConstantsSingleLine()
    ensures '\n' !in Import && '\n' !in RenderOpen && '\n' !in HtmlOpen && '\n' !in HtmlClose
  {
  }

  /** With the attributes and the markup each on one line, the module is
      exactly two lines. */
  lemma ModuleLinesRecovered(e: IconEntry)
    requires '\n' !in e.svg.html && '\n' !in AttrList(e.svg.attrs)
    ensures Split(ModuleText(e), '\n') == ModuleLines(e)
  {
    ConstantsSingleLine();
    SplitJoin(ModuleLines(e), '\n');
  }
}
