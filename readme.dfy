/** `src/svg-to-readme.ts`: the icon table written into a README.  The folders
    are the ones the component walk visits; each folder with `.svg` files gets a
    group, each group a table, each file a row with its picture, its name and
    the ESM import of its component. */
module Readme {
  import opened Text
  import opened Walk

  /** `Options` of `svgToReadme`; an absent optional field is `None`. */
  datatype ReadmeOptions = ReadmeOptions(projectName: string, entry: string, output: string,
                                         template: Option<string>, declarationTag: Option<string>)

  /** One entry of a group's `files`. */
  datatype IconFile = IconFile(name: string, path: string)

  /** One entry of `allSvgFiles`. */
  datatype IconGroup = IconGroup(name: string, files: seq<IconFile>)

  const DefaultDeclarationTag := "[icons-declaration]"

  /** `captialize`: the first character in upper case (ASCII), the rest as it is. */
  function Capitalize(s: string): (r: string)
    ensures |r| == |s|
  {
    if s == [] then [] else [Upper(s[0])] + s[1..]
  }

  /** `replace(/ /g, '%20')`. */
  function EscapeSpaces(s: string): (r: string)
    ensures ' ' !in r
    ensures ' ' !in s ==> r == s
  {
    if s == [] then [] else EscapeChar(s[0]) + EscapeSpaces(s[1..])
  }

  function EscapeChar(c: char): string
  {
    if c == ' ' then "%20" else [c]
  }

  /** `file.replace('.svg', '')`: a string pattern, so only the first `.svg` goes. */
  function ReadmeName(svgFile: string): string
  {
    ReplaceFirst(svgFile, ".svg", "")
  }

  /** The entry of `files` for one `.svg` file of `folder`. */
  function IconFileOf(host: Host, entry: string, folder: string, svgFile: string): IconFile
  {
    IconFile(ReadmeName(svgFile), EscapeSpaces(host.join([entry, folder, svgFile])))
  }

  /** The `files` of the group of `folder`. */
  function IconFiles(host: Host, entry: string, folder: string, svgFiles: seq<string>): (r: seq<IconFile>)
    ensures |r| == |svgFiles|
    ensures forall i :: 0 <= i < |svgFiles| ==> r[i] == IconFileOf(host, entry, folder, svgFiles[i])
  {
    if svgFiles == [] then []
    else
      IconFiles(host, entry, folder, svgFiles[..|svgFiles| - 1])
        + [IconFileOf(host, entry, folder, svgFiles[|svgFiles| - 1])]
  }

  /** `allSvgFiles` after the given folders: a group for each folder that holds `.svg` files. */
  function Groups(host: Host, entry: string, folders: seq<string>): seq<IconGroup>
  {
    if folders == [] then []
    else
      var last := folders[|folders| - 1];
      var svgFiles := SvgFilesOf(host, entry, last);
      Groups(host, entry, folders[..|folders| - 1])
        + (if svgFiles != [] then [IconGroup(Capitalize(last), IconFiles(host, entry, last, svgFiles))] else [])
  }

  // ---------------------------------------------------------------------------
  // The declaration: every `+=` of `declarationOut` adds a newline and one line

  /** The heading of a group; the root group has none. */
  function HeadingLines(group: IconGroup): seq<string>
  {
    if group.name != "." then ["", Heading(group.name)] else []
  }

  function Heading(groupName: string): string
  {
    "### " + groupName
  }

  const IconHeader := "| Icon | Name | ESM import |"
  const RuleHeader := "| --- | --- | --- |"
  const TableHeaderLines: seq<string> := [IconHeader, RuleHeader]

  function Image(file: IconFile): string
  {
    "![" + file.name + "](" + file.path + ")"
  }

  function EsmImport(camel: CamelCase, projectName: string, groupName: string, fileName: string): string
  {
    "import { " + camel(fileName, true) + " } from '" + projectName + "/" + Lower(groupName) + "'"
  }

  function RowText(image: string, name: string, esmImport: string): string
  {
    "| " + image + " | " + name + " | `" + esmImport + "` |"
  }

  function Row(camel: CamelCase, projectName: string, groupName: string, file: IconFile): string
  {
    RowText(Image(file), file.name, EsmImport(camel, projectName, groupName, file.name))
  }

  /** One row per file, in order. */
  function Rows(camel: CamelCase, projectName: string, groupName: string, files: seq<IconFile>): (r: seq<string>)
    ensures |r| == |files|
    ensures forall i :: 0 <= i < |files| ==> r[i] == Row(camel, projectName, groupName, files[i])
  {
    if files == [] then []
    else Rows(camel, projectName, groupName, files[..|files| - 1])
           + [Row(camel, projectName, groupName, files[|files| - 1])]
  }

  /** The lines a group adds: nothing for a group without files. */
  function GroupLines(camel: CamelCase, projectName: string, group: IconGroup): seq<string>
  {
    if group.files == [] then []
    else HeadingLines(group) + TableHeaderLines + Rows(camel, projectName, group.name, group.files)
  }

  function DeclarationLines(camel: CamelCase, projectName: string, groups: seq<IconGroup>): seq<string>
  {
    if groups == [] then []
    else DeclarationLines(camel, projectName, groups[..|groups| - 1])
           + GroupLines(camel, projectName, groups[|groups| - 1])
  }

  /** `declarationOut`. */
  function Declaration(camel: CamelCase, projectName: string, groups: seq<IconGroup>): string
  {
    Introduced(DeclarationLines(camel, projectName, groups), '\n')
  }

  // ---------------------------------------------------------------------------
  // The template

  /** `readmeTemplate`: read only when `options.template` is a non-empty path. */
  function TemplateText(host: Host, options: ReadmeOptions): Option<string>
  {
    if options.template.Some? && options.template.value != "" then
      Some(host.readFile(host.resolve([options.template.value])))
    else None
  }

  /** `options.declarationTag || '[icons-declaration]'`. */
  function DeclarationTag(options: ReadmeOptions): string
  {
    if options.declarationTag.Some? && options.declarationTag.value != "" then options.declarationTag.value
    else DefaultDeclarationTag
  }

  /** `readmeOut`: the declaration put in place of the first tag of a non-empty
      template, or the declaration alone. */
  function ReadmeOut(template: Option<string>, tag: string, declaration: string): string
  {
    if template.Some? && template.value != "" then ReplaceFirst(template.value, tag, declaration)
    else declaration
  }

  /** The text `svgToReadme` writes. */
  function ReadmeText(host: Host, options: ReadmeOptions): string
  {
    var groups := Groups(host, options.entry, Folders(host, options.entry));
    ReadmeOut(TemplateText(host, options), DeclarationTag(options), Declaration(host.camel, options.projectName, groups))
  }

  // ---------------------------------------------------------------------------
  // The program

  lemma RowsSnoc(camel: CamelCase, projectName: string, groupName: string, files: seq<IconFile>, j: nat)
    requires j < |files|
    ensures Rows(camel, projectName, groupName, files[..j + 1])
         == Rows(camel, projectName, groupName, files[..j]) + [Row(camel, projectName, groupName, files[j])]
  {
    assert files[..j + 1][..j] == files[..j];
  }

  lemma DeclarationLinesSnoc(camel: CamelCase, projectName: string, groups: seq<IconGroup>, k: nat)
    requires k < |groups|
    ensures DeclarationLines(camel, projectName, groups[..k + 1])
         == DeclarationLines(camel, projectName, groups[..k]) + GroupLines(camel, projectName, groups[k])
  {
    assert groups[..k + 1][..k] == groups[..k];
  }

  /** One pass of the row loop adds the next row as a line. */
  lemma AddRowStep(camel: CamelCase, projectName: string, group: IconGroup, before: seq<string>, j: nat, out: string)
    requires j < |group.files|
    requires out == Introduced(before + Rows(camel, projectName, group.name, group.files[..j]), '\n')
    ensures out + "\n" + RowText(Image(group.files[j]), group.files[j].name,
                                 EsmImport(camel, projectName, group.name, group.files[j].name))
         == Introduced(before + Rows(camel, projectName, group.name, group.files[..j + 1]), '\n')
  {
    var lines := before + Rows(camel, projectName, group.name, group.files[..j]);
    IntroducedSnoc(lines, Row(camel, projectName, group.name, group.files[j]), '\n');
    RowsSnoc(camel, projectName, group.name, group.files, j);
    assert lines + [Row(camel, projectName, group.name, group.files[j])]
        == before + Rows(camel, projectName, group.name, group.files[..j + 1]);
  }

  /** The rows of one group, added to `declarationOut`. */
  method AddRows(camel: CamelCase, projectName: string, group: IconGroup, ghost before: seq<string>, out: string)
    returns (declarationOut: string)
    requires out == Introduced(before, '\n')
    ensures declarationOut == Introduced(before + Rows(camel, projectName, group.name, group.files), '\n')
  {
    declarationOut := out;
    var j := 0;
    assert before + Rows(camel, projectName, group.name, group.files[..0]) == before;
    while j < |group.files|
      invariant 0 <= j <= |group.files|
      invariant declarationOut == Introduced(before + Rows(camel, projectName, group.name, group.files[..j]), '\n')
    {
      var file := group.files[j];
      var image := Image(file);
      var esmImport := EsmImport(camel, projectName, group.name, file.name);
      AddRowStep(camel, projectName, group, before, j, declarationOut);
      declarationOut := declarationOut + "\n" + RowText(image, file.name, esmImport);
      j := j + 1;
    }
    assert group.files[..j] == group.files;
  }

  /** The heading and table header of one group, added to `declarationOut`. */
  method AddHeader(group: IconGroup, ghost before: seq<string>, out: string) returns (declarationOut: string)
    requires out == Introduced(before, '\n')
    ensures declarationOut == Introduced(before + HeadingLines(group) + TableHeaderLines, '\n')
  {
    declarationOut := out;
    if group.name != "." {
      declarationOut := declarationOut + "\n\n" + Heading(group.name);
      IntroducedSnoc(before, "", '\n');
      IntroducedSnoc(before + [""], Heading(group.name), '\n');
      assert before + [""] + [Heading(group.name)] == before + HeadingLines(group);
    } else {
      assert before + HeadingLines(group) == before;
    }
    assert declarationOut == Introduced(before + HeadingLines(group), '\n');
    declarationOut := declarationOut + "\n" + IconHeader;
    IntroducedSnoc(before + HeadingLines(group), IconHeader, '\n');
    declarationOut := declarationOut + "\n" + RuleHeader;
    IntroducedSnoc(before + HeadingLines(group) + [IconHeader], RuleHeader, '\n');
    assert before + HeadingLines(group) + [IconHeader] + [RuleHeader]
        == before + HeadingLines(group) + TableHeaderLines;
  }

  /** The collecting loop: `allSvgFiles` from the folders. */
  method CollectGroups(host: Host, entry: string, folders: seq<string>) returns (allSvgFiles: seq<IconGroup>)
    ensures allSvgFiles == Groups(host, entry, folders)
  {
    allSvgFiles := [];
    var i := 0;
    while i < |folders|
      invariant 0 <= i <= |folders|
      invariant allSvgFiles == Groups(host, entry, folders[..i])
    {
      var folder := folders[i];
      assert folders[..i + 1][..i] == folders[..i];
      var files := host.readDir(host.join([entry, folder]));
      var svgFilesInFolder := SvgFiles(files);
      if |svgFilesInFolder| != 0 {
        allSvgFiles := allSvgFiles + [IconGroup(Capitalize(folder), IconFiles(host, entry, folder, svgFilesInFolder))];
      }
      i := i + 1;
    }
    assert folders[..i] == folders;
  }

  /** One pass of the group loop adds the lines of the next group. */
  lemma AddGroupStep(camel: CamelCase, projectName: string, groups: seq<IconGroup>, k: nat)
    requires k < |groups|
    ensures groups[k].files != [] ==>
              DeclarationLines(camel, projectName, groups[..k + 1])
              == DeclarationLines(camel, projectName, groups[..k]) + HeadingLines(groups[k]) + TableHeaderLines
                 + Rows(camel, projectName, groups[k].name, groups[k].files)
    ensures groups[k].files == [] ==>
              DeclarationLines(camel, projectName, groups[..k + 1]) == DeclarationLines(camel, projectName, groups[..k])
  {
    DeclarationLinesSnoc(camel, projectName, groups, k);
    var g := groups[k];
    if g.files != [] {
      var before := DeclarationLines(camel, projectName, groups[..k]);
      var rows := Rows(camel, projectName, g.name, g.files);
      assert GroupLines(camel, projectName, g) == HeadingLines(g) + TableHeaderLines + rows;
      assert before + (HeadingLines(g) + TableHeaderLines + rows) == before + HeadingLines(g) + TableHeaderLines + rows;
    }
  }

  /** The declaration loop: `declarationOut` from the groups. */
  method BuildDeclaration(camel: CamelCase, projectName: string, allSvgFiles: seq<IconGroup>)
    returns (declarationOut: string)
    ensures declarationOut == Declaration(camel, projectName, allSvgFiles)
  {
    declarationOut := "";
    var k := 0;
    while k < |allSvgFiles|
      invariant 0 <= k <= |allSvgFiles|
      invariant declarationOut == Declaration(camel, projectName, allSvgFiles[..k])
    {
      var folder := allSvgFiles[k];
      ghost var before := DeclarationLines(camel, projectName, allSvgFiles[..k]);
      AddGroupStep(camel, projectName, allSvgFiles, k);
      if |folder.files| != 0 {
        declarationOut := AddHeader(folder, before, declarationOut);
        declarationOut := AddRows(camel, projectName, folder, before + HeadingLines(folder) + TableHeaderLines,
                                  declarationOut);
      }
      k := k + 1;
    }
    assert allSvgFiles[..k] == allSvgFiles;
  }

  /** `svgToReadme`: the file written and the text written there. */
  method SvgToReadme(host: Host, options: ReadmeOptions) returns (outputFile: string, readmeOut: string)
    ensures outputFile == host.join([options.output])
    ensures readmeOut == ReadmeText(host, options)
  {
    outputFile := host.join([options.output]);
    var folders := ["."] + Directories(host, options.entry, host.readDir(options.entry));
    var allSvgFiles := CollectGroups(host, options.entry, folders);
    var readmeTemplate: Option<string> := None;
    if options.template.Some? && options.template.value != "" {
      readmeTemplate := Some(host.readFile(host.resolve([options.template.value])));
    }
    var declarationOut := BuildDeclaration(host.camel, options.projectName, allSvgFiles);
    var declarationTag := DefaultDeclarationTag;
    if options.declarationTag.Some? && options.declarationTag.value != "" {
      declarationTag := options.declarationTag.value;
    }
    if readmeTemplate.Some? && readmeTemplate.value != "" {
      readmeOut := ReplaceFirst(readmeTemplate.value, declarationTag, declarationOut);
    } else {
      readmeOut := declarationOut;
    }
  }
}
