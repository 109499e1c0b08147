/** scripts/output/elements.js: the Lit custom-element module written for
    each icon, and the line the index file gives it. */
module Elements {
  import opened Strings
  import opened OutputUtil

  // The fixed lines of the template (elements.js:15-30).
  const Import: string := "import { LitElement, html, svg } from 'lit';"
  const IconOpen: string := "  static _icon() {"
  const MarkupOpen: string := "    return svg`"
  const MarkupClose: string := "`;"
  const Close2: string := "  }"
  const AttrsOpen: string := "  get attrs() {"
  const AttrsStart: string := "    const attrs = { "
  const AttrsEnd: string := " };"
  // (long lines are written in pieces)
  const AttrsMerge: string :=
    "    Array.from(this.attributes)" + ".forEach(({ nodeName, nodeValue })" + " => attrs[nodeName] = nodeValue);"
  const AttrsReturn: string :=
    "    return Object.entries(attrs)" + ".map(([k, v]) => `${k}=\"${v}\"`)" + ".join(' ');"
  const Render: string :=
    "  render() { return html`<svg " + "${this.attrs}>${this.constructor" + "._icon()}</svg>`; }"
  const Close0: string := "}"
  const TagPrefix: string := "f-icon-"

  /** The custom element's tag. */
  function TagName(name: string, size: string): string {
    TagPrefix + name + size
  }

  /** The lines before the one holding the markup; they depend on the class
      name only. */
  function HeadLines(className: string): seq<string> {
    [Import, "", "export class " + className + " extends LitElement {", IconOpen]
  }

  /** The line that holds the inner markup of the SVG, verbatim. */
  function MarkupLine(html: string): string {
    MarkupOpen + html + MarkupClose
  }

  /** The lines after the markup: the attribute list, the render method and
      the registration of the tag. */
  function TailLines(className: string, attrs: seq<Attr>, tag: string): seq<string> {
    [ Close2, AttrsOpen, AttrsStart + AttrList(attrs) + AttrsEnd, AttrsMerge, AttrsReturn, Close2, Render, Close0,
      "if (!customElements.get('" + tag + "', " + className + ")) {",
      "  customElements.define('" + tag + "', " + className + ");",
      Close0 ]
  }

  /** The module's lines; the class name is the icon's `exportName`. */
  function ModuleLines(e: IconEntry): (r: seq<string>)
    ensures |r| == 16
  {
    HeadLines(e.exportName) + [MarkupLine(e.svg.html)] + TailLines(e.exportName, e.svg.attrs, TagName(e.name, e.size))
  }

  /** The module text: its lines joined by newlines. */
  function ModuleText(e: IconEntry): string {
    Join(ModuleLines(e), "\n")
  }

  /** `export * from './<filename>';` */
  function IndexLine(x: IconExport): string {
    "export * from './" + x.filename + "';"
  }

  /** The markup is spliced in verbatim: the text before it depends only on
      the class name, and the text after it does not depend on the markup. */
  lemma MarkupSpliced(e: IconEntry)
    ensures ModuleText(e) ==
      Join(HeadLines(e.exportName), "\n") + "\n" + MarkupOpen + e.svg.html + MarkupClose + "\n"
        + Join(TailLines(e.exportName, e.svg.attrs, TagName(e.name, e.size)), "\n")
  {
    JoinAround(HeadLines(e.exportName), MarkupLine(e.svg.html), TailLines(e.exportName, e.svg.attrs, TagName(e.name, e.size)), "\n");
  }

  // Helpers for `ModuleLinesRecovered`: the fixed text of the template holds
  // no newline.

  lemma ConstantsSingleLine1()
    ensures '\n' !in Import && '\n' !in IconOpen && '\n' !in MarkupOpen && '\n' !in MarkupClose
  {
  }

  lemma ConstantsSingleLine2()
    ensures '\n' !in Close2 && '\n' !in AttrsOpen && '\n' !in AttrsStart && '\n' !in AttrsEnd && '\n' !in Close0
  {
  }

  lemma ConstantsSingleLine3()
    ensures '\n' !in AttrsMerge
  {
  }

  lemma ConstantsSingleLine4()
    ensures '\n' !in AttrsReturn
  {
  }

  lemma ConstantsSingleLine5()
    ensures '\n' !in Render
  {
  }

  lemma ConstantsSingleLine6()
    ensures '\n' !in "export class " && '\n' !in " extends LitElement {"
  {
  }

  lemma ConstantsSingleLine7()
    ensures '\n' !in "if (!customElements.get('" && '\n' !in "', " && '\n' !in ")) {"
  {
  }

  lemma ConstantsSingleLine8()
    ensures '\n' !in "  customElements.define('" && '\n' !in ");"
  {
  }

  /** When the class name, the markup, the rendered attributes and the tag are
      each on one line, the module consists of exactly the sixteen template
      lines: splitting its text at newlines gives them back. */
  lemma ModuleLinesRecovered(e: IconEntry)
    requires '\n' !in e.exportName && '\n' !in e.svg.html && '\n' !in AttrList(e.svg.attrs)
    requires '\n' !in TagName(e.name, e.size)
    ensures Split(ModuleText(e), '\n') == ModuleLines(e)
  {
    ConstantsSingleLine1();
    ConstantsSingleLine2();
    ConstantsSingleLine3();
    ConstantsSingleLine4();
    ConstantsSingleLine5();
    ConstantsSingleLine6();
    ConstantsSingleLine7();
    ConstantsSingleLine8();
    SplitJoin(ModuleLines(e), '\n');
  }

  /** The class is the icon's export name and the tag, registered under that
      class, is `f-icon-` followed by the name and the size. */
  lemma ClassAndTag(e: IconEntry)
    ensures ModuleLines(e)[2] == "export class " + e.exportName + " extends LitElement {"
    ensures ModuleLines(e)[14] == "  customElements.define('f-icon-" + e.name + e.size + "', " + e.exportName + ");"
  {
    assert "  customElements.define('" + TagName(e.name, e.size) == "  customElements.define('f-icon-" + e.name + e.size;
  }
}
