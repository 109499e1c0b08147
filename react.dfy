/** scripts/output/react.js: the two-line React module written for each
    icon, and the line the index file gives it. */
module React {
  import opened Strings
  import opened OutputUtil

  // The fixed parts of the template (react.js:13-16).
  const Import: string := "import React from 'react';"
  const ExportOpen: string := "export const "
  const Arrow: string := " = (attrs) => "
  const CreateCall: string := "React.createElement('svg', { "
  const HtmlOpen: string := ", dangerouslySetInnerHTML: { __html: '"
  const HtmlClose: string := "' }, ...attrs, });"

  /** `export const <exportName> = (attrs) => ` */
  function Declaration(exportName: string): string {
    ExportOpen + exportName + Arrow
  }

  /** The text of the second line before the markup: it depends on the export
      name and the attributes only. */
  function ComponentHead(exportName: string, attrs: seq<Attr>): string {
    Declaration(exportName) + CreateCall + AttrList(attrs) + HtmlOpen
  }

  /** The module's two lines. */
  function ModuleLines(e: IconEntry): seq<string> {
    [Import, ComponentHead(e.exportName, e.svg.attrs) + e.svg.html + HtmlClose]
  }

  function ModuleText(e: IconEntry): string {
    Join(ModuleLines(e), "\n")
  }

  /** `export * from './<filename>'`, without a semicolon. */
  function IndexLine(x: IconExport): string {
    "export * from './" + x.filename + "'"
  }

  /** The module is the import line, then the component, whose markup is
      spliced in verbatim into `__html` after a text that does not depend on
      it. */
  lemma MarkupSpliced(e: IconEntry)
    ensures ModuleText(e) == Import + "\n" + ComponentHead(e.exportName, e.svg.attrs) + e.svg.html + HtmlClose
  {
    JoinTwo(Import, ComponentHead(e.exportName, e.svg.attrs) + e.svg.html + HtmlClose, "\n");
  }

  /** The second line declares the export name as the component. */
  lemma ExportsComponent(e: IconEntry)
    ensures StartsWith(ModuleLines(e)[1], Declaration(e.exportName))
  {
    var d := Declaration(e.exportName);
    StartsWithConcat(d, CreateCall);
    StartsWithAppend(d + CreateCall, d, AttrList(e.svg.attrs));
    StartsWithAppend(d + CreateCall + AttrList(e.svg.attrs), d, HtmlOpen);
    StartsWithAppend(ComponentHead(e.exportName, e.svg.attrs), d, e.svg.html);
    StartsWithAppend(ComponentHead(e.exportName, e.svg.attrs) + e.svg.html, d, HtmlClose);
  }

  // Helpers for `ModuleLinesRecovered`: the fixed text of the template holds
  // no newline.

  lemma ConstantsSingleLine1()
    ensures '\n' !in Import && '\n' !in ExportOpen && '\n' !in Arrow
  {
  }

  lemma ConstantsSingleLine2()
    ensures '\n' !in CreateCall
  {
  }

  lemma ConstantsSingleLine3()
    ensures '\n' !in HtmlOpen && '\n' !in HtmlClose
  {
  }

  /** With the export name, the attributes and the markup each on one line,
      the module is exactly two lines. */
  lemma ModuleLinesRecovered(e: IconEntry)
    requires '\n' !in e.exportName && '\n' !in e.svg.html && '\n' !in AttrList(e.svg.attrs)
    ensures Split(ModuleText(e), '\n') == ModuleLines(e)
  {
    ConstantsSingleLine1();
    ConstantsSingleLine2();
    ConstantsSingleLine3();
    SplitJoin(ModuleLines(e), '\n');
  }
}
