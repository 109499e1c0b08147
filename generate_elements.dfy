/** generateElements.js: the older Lit generator. Its class name is built
    from the name alone and the size appended afterwards, its template imports
    `unsafeHTML`, and its index lines are bare `import from` statements. */
module GenerateElements {
  import opened Strings
  import opened OutputUtil
  import Elements

  // The fixed lines of the template (generateElements.js:26-39).
  const LitImport: string := "import { LitElement, html } from 'lit';"
  const UnsafeImport: string := "import { unsafeHTML } from " + "'lit/directives/unsafe-html.js';"
  const IconOpen: string := "const icon = `"
  const IconClose: string := "`;"
  const Render: string :=
    "  render() { return html`${unsafeHTML(" + "`<svg ${this.attrs}>${icon}</svg>`)}`; }"

  /** The class name: `capitalize(camelcase("icon-" + name))`, then the size. */
  function ClassName(name: string, size: string, camel: string -> string): (r: string)
    ensures EndsWith(r, size)
    ensures |r| == |camel("icon-" + name)| + |size|
  {
    var base := PascalCase("icon-" + name, camel);
    assert (base + size)[|base|..] == size;
    base + size
  }

  /** The custom element's tag, `f-icon-<name><size>`. */
  function TagName(name: string, size: string): string {
    "f-icon-" + name + size
  }

  /** The lines before the markup: the two imports. */
  const HeadLines: seq<string> := [LitImport, UnsafeImport]

  /** The line that holds the inner markup, verbatim. */
  function MarkupLine(html: string): string {
    IconOpen + html + IconClose
  }

  /** The lines after the markup: the class, its attribute list and render
      method, and the registration of the tag. */
  function TailLines(className: string, attrs: seq<Attr>, tag: string): seq<string> {
    [ "class " + className + " extends LitElement {",
      "  get attrs() {",
      Elements.AttrsStart + AttrList(attrs) + Elements.AttrsEnd,
      Elements.AttrsMerge,
      Elements.AttrsReturn,
      "  }",
      Render,
      "}",
      "if (!customElements.get('" + tag + "', " + className + ")) {",
      "  customElements.define('" + tag + "', " + className + ")",
      "}" ]
  }

  /** The module's lines for an icon of size `size` and name `name`. */
  function ModuleLines(name: string, size: string, svg: Svg, camel: string -> string): (r: seq<string>)
    ensures |r| == 14
  {
    HeadLines + [MarkupLine(svg.html)] + TailLines(ClassName(name, size, camel), svg.attrs, TagName(name, size))
  }

  function ModuleText(name: string, size: string, svg: Svg, camel: string -> string): string {
    Join(ModuleLines(name, size, svg, camel), "\n")
  }

  /** `import from './<filename>'` */
  function IndexLine(filename: string): string {
    "import from './" + filename + "'"
  }

  /** The markup is spliced in verbatim after the two imports; the text after
      it does not depend on the markup. */
  lemma MarkupSpliced(name: string, size: string, svg: Svg, camel: string -> string)
    ensures ModuleText(name, size, svg, camel) ==
      Join(HeadLines, "\n") + "\n" + IconOpen + svg.html + IconClose + "\n"
        + Join(TailLines(ClassName(name, size, camel), svg.attrs, TagName(name, size)), "\n")
  {
    JoinAround(HeadLines, MarkupLine(svg.html), TailLines(ClassName(name, size, camel), svg.attrs, TagName(name, size)), "\n");
  }

  // Helpers for `ModuleLinesRecovered`: the fixed text of the template holds
  // no newline.

  lemma ConstantsSingleLine1()
    ensures '\n' !in LitImport && '\n' !in UnsafeImport && '\n' !in IconOpen && '\n' !in IconClose
  {
  }

  lemma ConstantsSingleLine2()
    ensures '\n' !in Render
  {
  }

  lemma ConstantsSingleLine3()
    ensures '\n' !in "class " && '\n' !in " extends LitElement {" && '\n' !in "  get attrs() {" && '\n' !in "  }" && '\n' !in "}"
  {
  }

  lemma ConstantsSingleLine4()
    ensures '\n' !in "if (!customElements.get('" && '\n' !in "', " && '\n' !in ")) {"
    ensures '\n' !in "  customElements.define('" && '\n' !in ")"
  {
  }

  /** When the class name, the markup, the rendered attributes and the tag are
      each on one line, the module consists of exactly the fourteen template
      lines. */
  lemma ModuleLinesRecovered(name: string, size: string, svg: Svg, camel: string -> string)
    requires '\n' !in ClassName(name, size, camel) && '\n' !in svg.html && '\n' !in AttrList(svg.attrs)
    requires '\n' !in TagName(name, size)
    ensures Split(ModuleText(name, size, svg, camel), '\n') == ModuleLines(name, size, svg, camel)
  {
    ConstantsSingleLine1();
    ConstantsSingleLine2();
    ConstantsSingleLine3();
    ConstantsSingleLine4();
    Elements.ConstantsSingleLine2();
    Elements.ConstantsSingleLine3();
    Elements.ConstantsSingleLine4();
    SplitJoin(ModuleLines(name, size, svg, camel), '\n');
  }

  /** The class is declared under the class name and the tag `f-icon-` followed
      by the name and the size is registered under it. */
  lemma ClassAndTag(name: string, size: string, svg: Svg, camel: string -> string)
    ensures var lines := ModuleLines(name, size, svg, camel);
      lines[3] == "class " + ClassName(name, size, camel) + " extends LitElement {"
      && lines[12] == "  customElements.define('f-icon-" + name + size + "', " + ClassName(name, size, camel) + ")"
  {
    assert "  customElements.define('" + TagName(name, size) == "  customElements.define('f-icon-" + name + size;
  }
}
