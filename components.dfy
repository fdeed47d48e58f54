/** Component assembly of `src/svg-to-react-component.ts`: the React and Vue
    templates, the fixed order in which they go through the rewriter, and the
    barrel index text.  `prettier.format` is not part of this model: every text
    here is the one handed to the formatter. */
module Components {
  import opened Text
  import opened Markup

  const DefaultColor := "#262626"

  /** The React template literal, before any rewriting; one literal per line. */
  function ReactTemplate(componentName: string, svgContent: string): string
  {
    "\n"
    + "\timport React from 'react';\n"
    + "\n"
    + "\texport interface Props {\n"
    + "\t\tclassName?: string;\n"
    + "\t\tcolor?: string; \n"
    + "\t\ttitle?: string;\n"
    + "\t}\n"
    + "\n"
    + "\tconst " + componentName + " = ({className, color = '" + DefaultColor
    + "', title = '" + componentName + " icon'}: Props) => {\n"
    + "\t\treturn (" + svgContent + ");\n"
    + "\t};\n"
    + "\t\n"
    + "\texport default " + componentName + ";\n"
    + "\t"
  }

  /** `createReactComponent`: convert attribute names, bind `fill` to `color` on
      the `<path…>` tags and `className` on the `<svg…>` tags, then insert
      `<title>{title}</title>`.  `Err` when an `addProp` finds no tag. */
  function ReactComponent(camel: CamelCase, svgContent: string, componentName: string): Result<string>
  {
    var out := ConvertedAttributes(camel, ReactTemplate(componentName, svgContent));
    match AddProp(camel, "fill", "color", "path", out, Jsx)
    case Err(e) => Err(e)
    case Ok(withFill) =>
      match AddProp(camel, "className", "className", "svg", withFill, Jsx)
      case Err(e) => Err(e)
      case Ok(withClass) => Ok(AddElement(camel, "title", "{title}", "path", withClass))
  }

  /** The lines of the Vue template before the SVG: the script opening, the
      `props` block, then the script close and the `<template>` opening. */
  function VueHead(componentName: string): string
  {
    VueScriptOpen(componentName) + VueProps(componentName) + VueScriptClose
  }

  function VueScriptOpen(componentName: string): string
  {
    "\n" + ScriptOpenLine + VueScriptSetup(componentName)
  }

  function VueScriptSetup(componentName: string): string
  {
    ImportLine + "\n" + ExportLine + ("\t\tname: '" + componentName + "',\n")
  }

  const ImportLine := "\timport { defineComponent } from 'vue'\n"
  const ExportLine := "\texport default defineComponent({\n"

  /** The `props` block: a `color` prop and a `title` prop, both strings. */
  function VueProps(componentName: string): string
  {
    "\t\tprops: {\n" + VueColorProp + VueTitleProp(componentName) + "\t\t},\n" + "\t})\n"
  }

  const VueColorProp := "\t\t\tcolor: {\n" + TypeStringLine + ("\t\t\t\tdefault: '" + DefaultColor + "',\n") + PropCloseLine

  function VueTitleProp(componentName: string): string
  {
    "\t\t\ttitle: {\n" + TypeStringLine + ("\t\t\t\tdefault: '" + componentName + " icon',\n") + PropCloseLine
  }

  const TypeStringLine := "\t\t\t\ttype: String,\n"
  const PropCloseLine := "\t\t\t},\n"

  const VueScriptClose := ScriptCloseLine + "\n" + TemplateOpenLine

  const ScriptOpenLine := "\t<script lang=\"ts\">\n"
  const ScriptCloseLine := "\t</script>\n"
  const TemplateOpenLine := "\t<template>\n"
  const TemplateCloseLine := "\t</template>\n"

  /** The Vue single-file-component template literal, before any rewriting. */
  function VueTemplate(componentName: string, svgContent: string): string
  {
    VueHead(componentName) + "\t\t" + svgContent + VueTemplateTail
  }

  const VueTemplateTail := "\n" + TemplateCloseLine + "\t"

  /** The content of the Vue `<title>`: the title prop or the default title. */
  function VueTitle(componentName: string): string
  {
    "{{title || '" + componentName + " icon'}}"
  }

  /** The first step of `createVueComponent`: `:fill` bound on the `<path…>` tags. */
  function VueWithFill(camel: CamelCase, svgContent: string, componentName: string): Result<string>
  {
    AddProp(camel, "fill", "color || '" + DefaultColor + "'", "path", VueTemplate(componentName, svgContent), Vue)
  }

  /** `createVueComponent`: bind `fill`, then insert the `<title>`. */
  function VueComponent(camel: CamelCase, svgContent: string, componentName: string): Result<string>
  {
    match VueWithFill(camel, svgContent, componentName)
    case Err(e) => Err(e)
    case Ok(withFill) => Ok(AddElement(camel, "title", VueTitle(componentName), "path", withFill))
  }

  // ---------------------------------------------------------------------------
  // The barrel index

  function ExportStatement(componentName: string): string
  {
    "export { default as " + componentName + "} from './" + componentName + "';"
  }

  /** One export statement per component, in order. */
  function ExportStatements(components: seq<string>): (r: seq<string>)
    ensures |r| == |components|
    ensures forall i :: 0 <= i < |components| ==> r[i] == ExportStatement(components[i])
  {
    if components == [] then []
    else ExportStatements(components[..|components| - 1]) + [ExportStatement(components[|components| - 1])]
  }

  /** The index text before formatting: each export statement on its own line. */
  function IndexText(components: seq<string>): string
  {
    Terminated(ExportStatements(components), '\n')
  }

  /** `createIndexFile(components, outputDir)`: the path written and the text written there. */
  method CreateIndexFile(join: seq<string> -> string, components: seq<string>, outputDir: string)
    returns (indexFile: string, out: string)
    ensures indexFile == join([outputDir, "index.ts"])
    ensures out == IndexText(components)
  {
    indexFile := join([outputDir, "index.ts"]);
    out := "";
    var i := 0;
    while i < |components|
      invariant 0 <= i <= |components|
      invariant out == IndexText(components[..i])
    {
      var componentName := components[i];
      assert components[..i + 1][..i] == components[..i];
      out := out + ExportStatement(componentName) + "\n";
      i := i + 1;
    }
    assert components[..i] == components;
  }
}
