/** generateReact.js: the older React generator. Its module exports the
    component as the default export, and its index re-exports each default
    under the class-style name `capitalize(camelcase("icon-" + name))` plus the
    size (see `GenerateElements.ClassName`). */
module GenerateReact {
  import opened Strings
  import opened OutputUtil
  import React
  import GenerateElements

  // The fixed parts of the template (generateReact.js:23-28).
  const DefaultOpen: string := "export default (attrs) => "

  /** The text of the second line before the markup; it depends on the
      attributes only. */
  function ComponentHead(attrs: seq<Attr>): string {
    DefaultOpen + React.CreateCall + AttrList(attrs) + React.HtmlOpen
  }

  /** The module's two lines. */
  function ModuleLines(svg: Svg): (r: seq<string>)
    ensures |r| == 2
  {
    [React.Import, ComponentHead(svg.attrs) + svg.html + React.HtmlClose]
  }

  function ModuleText(svg: Svg): string {
    Join(ModuleLines(svg), "\n")
  }

  /** `export { default as <class name> } from './<filename>'` */
  function IndexLine(name: string, size: string, filename: string, camel: string -> string): string {
    "export { default as " + GenerateElements.ClassName(name, size, camel) + " } from './" + filename + "'"
  }

  /** The module is the import line, then the component, whose markup is
      spliced in verbatim inside `__html: '…'`. */
  lemma MarkupSpliced(svg: Svg)
    ensures ModuleText(svg) == React.Import + "\n" + ComponentHead(svg.attrs) + svg.html + React.HtmlClose
  {
    JoinTwo(React.Import, ComponentHead(svg.attrs) + svg.html + React.HtmlClose, "\n");
  }

  /** The second line is a default export. */
  lemma ExportsDefault(svg: Svg)
    ensures StartsWith(ModuleLines(svg)[1], DefaultOpen)
  {
    var tail := React.CreateCall + AttrList(svg.attrs) + React.HtmlOpen;
    assert ComponentHead(svg.attrs) == DefaultOpen + tail;
    StartsWithConcat(DefaultOpen, tail);
    StartsWithAppend(ComponentHead(svg.attrs), DefaultOpen, svg.html);
    StartsWithAppend(ComponentHead(svg.attrs) + svg.html, DefaultOpen, React.HtmlClose);
  }

  // Helpers for `ModuleLinesRecovered`: the fixed text of the template holds
  // no newline.

  lemma ConstantsSingleLine()
    ensures '\n' !in DefaultOpen
  {
  }

  /** With the rendered attributes and the markup on one line each, the module
      consists of exactly its two lines. */
  lemma ModuleLinesRecovered(svg: Svg)
    requires '\n' !in svg.html && '\n' !in AttrList(svg.attrs)
    ensures Split(ModuleText(svg), '\n') == ModuleLines(svg)
  {
    ConstantsSingleLine();
    React.ConstantsSingleLine1();
    React.ConstantsSingleLine2();
    React.ConstantsSingleLine3();
    SplitJoin(ModuleLines(svg), '\n');
  }
}
