/** What `svgToReadme` writes: one group per folder with `.svg` files, in the
    order of the walk, the root first and without a heading; the declaration
    is a blank first line followed by the table lines; the import path names
    the folder in lower case; and the template receives the declaration in
    place of its first tag. */
module ReadmeFacts {
  import opened Text
  import opened Walk
  import opened Readme

  // ---------------------------------------------------------------------------
  // Names

  /** Only the first character changes; the empty name stays empty. */
  lemma CapitalizeFirstOnly(s: string)
    ensures s == [] ==> Capitalize(s) == []
    ensures s != [] ==> Capitalize(s)[0] == Upper(s[0]) && Capitalize(s)[1..] == s[1..]
  {
  }

  /** Capitalising does not change what `toLowerCase` makes of a name. */
  lemma CapitalizeLower(s: string)
    ensures Lower(Capitalize(s)) == Lower(s)
  {
    if s != [] {
      var c := Capitalize(s);
      assert LowerChar(Upper(s[0])) == LowerChar(s[0]);
      assert forall i :: 0 < i < |s| ==> c[i] == s[i];
      assert Lower(c)[0] == Lower(s)[0];
      assert forall i :: 0 <= i < |s| ==> Lower(c)[i] == Lower(s)[i];
    }
  }

  lemma CapitalizeIdempotent(s: string)
    ensures Capitalize(Capitalize(s)) == Capitalize(s)
  {
    if s != [] {
      assert Upper(Upper(s[0])) == Upper(s[0]);
      assert Capitalize(s)[1..] == s[1..];
    }
  }

  /** Only the root folder is capitalised to `.`, so only its group goes without a heading. */
  lemma HeadingOfFolder(folder: string, files: seq<IconFile>)
    ensures HeadingLines(IconGroup(Capitalize(folder), files))
         == if folder == "." then [] else ["", Heading(Capitalize(folder))]
  {
    if folder != [] && Capitalize(folder) == "." {
      assert Upper(folder[0]) == Capitalize(folder)[0] == '.';
      assert |folder| == 1;
      assert folder == [folder[0]];
    }
  }

  /** The module path of an import is the folder's own name in lower case. */
  lemma ImportPathOfFolder(camel: CamelCase, projectName: string, folder: string, fileName: string)
    ensures EsmImport(camel, projectName, Capitalize(folder), fileName) == EsmImport(camel, projectName, folder, fileName)
  {
    CapitalizeLower(folder);
  }

  /** Escaping works character by character. */
  lemma {:induction false} EscapeSpacesAppend(a: string, b: string)
    ensures EscapeSpaces(a + b) == EscapeSpaces(a) + EscapeSpaces(b)
  {
    if a == [] {
      assert a + b == b;
    } else {
      assert (a + b)[0] == a[0];
      assert (a + b)[1..] == a[1..] + b;
      EscapeSpacesAppend(a[1..], b);
      calc {
        EscapeSpaces(a + b);
        EscapeChar(a[0]) + EscapeSpaces(a[1..] + b);
        EscapeChar(a[0]) + (EscapeSpaces(a[1..]) + EscapeSpaces(b));
        (EscapeChar(a[0]) + EscapeSpaces(a[1..])) + EscapeSpaces(b);
      }
    }
  }

  /** The README name drops the first `.svg`, wherever it is. */
  lemma ReadmeNameDropsFirst(svgFile: string, i: nat)
    requires FirstAt(svgFile, ".svg", i)
    ensures ReadmeName(svgFile) == svgFile[..i] + svgFile[i + 4..]
  {
    ReplaceFirstAt(svgFile, ".svg", "", i);
  }

  /** When the only `.svg` is the extension, the README name is the stem the
      component is named after. */
  lemma ReadmeNameMatchesComponentFile(svgFile: string)
    requires |svgFile| >= 4 && FirstAt(svgFile, ".svg", |svgFile| - 4)
    ensures ReadmeName(svgFile) == StripSvgExtension(svgFile)
  {
    ReadmeNameDropsFirst(svgFile, |svgFile| - 4);
    assert EndsWith(svgFile, ".svg");
  }

  /** An earlier `.svg` makes the two differ: the README lists `ab.svg` for the
      component generated from `a.svgb`. */
  lemma ReadmeNameCanDifferFromComponentFile()
    ensures ReadmeName("a.svgb.svg") == "ab.svg"
    ensures StripSvgExtension("a.svgb.svg") == "a.svgb"
  {
    ReadmeNameOfEarlierSvg();
    var f := "a.svgb.svg";
    assert EndsWith(f, ".svg") by { assert f[6..] == ".svg"; }
  }

  lemma ReadmeNameOfEarlierSvg()
    ensures ReadmeName("a.svgb.svg") == "ab.svg"
  {
    var f := "a.svgb.svg";
    assert OccursAt(f, ".svg", 1) by { assert f[1..5] == ".svg"; }
    assert !OccursAt(f, ".svg", 0) by { assert f[0] == 'a'; }
    ReadmeNameDropsFirst(f, 1);
    assert f[..1] + f[5..] == "ab.svg";
  }

  // ---------------------------------------------------------------------------
  // Groups

  lemma {:induction false} GroupsAppend(host: Host, entry: string, a: seq<string>, b: seq<string>)
    ensures Groups(host, entry, a + b) == Groups(host, entry, a) + Groups(host, entry, b)
    decreases |b|
  {
    if b == [] {
      assert a + b == a;
    } else {
      var init := b[..|b| - 1];
      assert (a + b)[..|a + b| - 1] == a + init;
      assert (a + b)[|a + b| - 1] == b[|b| - 1];
      GroupsAppend(host, entry, a, init);
    }
  }

  /** `allSvgFiles` holds one group per folder with `.svg` files, in the order
      of the folders, named by `captialize` and listing the folder's files. */
  lemma {:induction false} GroupsFollowFolders(host: Host, entry: string, folders: seq<string>)
    ensures |Groups(host, entry, folders)| == |NonEmptyFolders(host, entry, folders)|
    ensures forall i :: 0 <= i < |Groups(host, entry, folders)| ==>
              var f := NonEmptyFolders(host, entry, folders)[i];
              Groups(host, entry, folders)[i] == IconGroup(Capitalize(f), IconFiles(host, entry, f, SvgFilesOf(host, entry, f)))
  {
    if folders != [] {
      GroupsFollowFolders(host, entry, folders[..|folders| - 1]);
    }
  }

  /** No group is empty, so the `continue` of the declaration loop never applies. */
  lemma GroupsHaveFiles(host: Host, entry: string, folders: seq<string>)
    ensures forall g :: g in Groups(host, entry, folders) ==> g.files != []
  {
    GroupsFollowFolders(host, entry, folders);
    var groups := Groups(host, entry, folders);
    var ne := NonEmptyFolders(host, entry, folders);
    forall g | g in groups
      ensures g.files != []
    {
      var i :| 0 <= i < |groups| && groups[i] == g;
      assert ne[i] in ne;
    }
  }

  /** When the entry itself holds `.svg` files, its group comes first and has
      no heading. */
  lemma RootGroupFirst(host: Host, entry: string)
    requires SvgFilesOf(host, entry, ".") != []
    ensures |Groups(host, entry, Folders(host, entry))| >= 1
    ensures Groups(host, entry, Folders(host, entry))[0]
         == IconGroup(".", IconFiles(host, entry, ".", SvgFilesOf(host, entry, ".")))
    ensures HeadingLines(Groups(host, entry, Folders(host, entry))[0]) == []
  {
    var dirs := Directories(host, entry, host.readDir(entry));
    GroupsAppend(host, entry, ["."], dirs);
    assert ["."][..0] == [];
    assert Capitalize(".") == ".";
  }

  // ---------------------------------------------------------------------------
  // The declaration text

  /** What a newline-free declaration needs of its parts. */
  predicate Printable(camel: CamelCase, projectName: string, groups: seq<IconGroup>)
  {
    '\n' !in projectName
    && forall g :: g in groups ==>
         '\n' !in g.name
         && forall f :: f in g.files ==> '\n' !in f.name && '\n' !in f.path && '\n' !in camel(f.name, true)
  }

  lemma LowerWithoutNewline(s: string)
    requires '\n' !in s
    ensures '\n' !in Lower(s)
  {
    forall i | 0 <= i < |s|
      ensures Lower(s)[i] != '\n'
    {
      assert s[i] != '\n';
    }
  }

  lemma RowWithoutNewline(camel: CamelCase, projectName: string, groupName: string, f: IconFile)
    requires '\n' !in projectName && '\n' !in groupName
    requires '\n' !in f.name && '\n' !in f.path && '\n' !in camel(f.name, true)
    ensures '\n' !in Row(camel, projectName, groupName, f)
  {
    LowerWithoutNewline(groupName);
    assert '\n' !in Image(f);
    assert '\n' !in EsmImport(camel, projectName, groupName, f.name);
  }

  lemma GroupLinesWithoutNewline(camel: CamelCase, projectName: string, g: IconGroup)
    requires '\n' !in projectName && '\n' !in g.name
    requires forall f :: f in g.files ==> '\n' !in f.name && '\n' !in f.path && '\n' !in camel(f.name, true)
    ensures forall line :: line in GroupLines(camel, projectName, g) ==> '\n' !in line
  {
    var rows := Rows(camel, projectName, g.name, g.files);
    forall line | line in rows
      ensures '\n' !in line
    {
      var i :| 0 <= i < |rows| && rows[i] == line;
      assert g.files[i] in g.files;
      RowWithoutNewline(camel, projectName, g.name, g.files[i]);
    }
    assert '\n' !in Heading(g.name);
    HeaderWithoutNewline();
    forall line | line in GroupLines(camel, projectName, g)
      ensures '\n' !in line
    {
      if g.files != [] {
        assert line in HeadingLines(g) || line in TableHeaderLines || line in rows;
      }
    }
  }

  lemma HeaderWithoutNewline()
    ensures forall line :: line in TableHeaderLines ==> '\n' !in line
  {
    assert '\n' !in IconHeader;
    assert '\n' !in RuleHeader;
  }

  lemma {:induction false} DeclarationLinesWithoutNewline(camel: CamelCase, projectName: string, groups: seq<IconGroup>)
    requires Printable(camel, projectName, groups)
    ensures forall line :: line in DeclarationLines(camel, projectName, groups) ==> '\n' !in line
  {
    if groups != [] {
      var init := groups[..|groups| - 1];
      var last := groups[|groups| - 1];
      assert forall g :: g in init ==> g in groups;
      DeclarationLinesWithoutNewline(camel, projectName, init);
      assert last in groups;
      GroupLinesWithoutNewline(camel, projectName, last);
    }
  }

  /** Split on newlines, the declaration is an empty first line followed by
      the heading, header and row lines of every group, in order. */
  lemma DeclarationLayout(camel: CamelCase, projectName: string, groups: seq<IconGroup>)
    requires Printable(camel, projectName, groups)
    ensures Split(Declaration(camel, projectName, groups), '\n') == [""] + DeclarationLines(camel, projectName, groups)
  {
    var lines := DeclarationLines(camel, projectName, groups);
    DeclarationLinesWithoutNewline(camel, projectName, groups);
    assert forall i :: 0 <= i < |lines| ==> lines[i] in lines;
    SplitIntroduced(lines, '\n');
  }

  /** Every file of every group has its row in the declaration. */
  lemma {:induction false} RowInDeclaration(camel: CamelCase, projectName: string, groups: seq<IconGroup>,
                                            g: IconGroup, f: IconFile)
    requires g in groups && f in g.files
    ensures Row(camel, projectName, g.name, f) in DeclarationLines(camel, projectName, groups)
  {
    var init := groups[..|groups| - 1];
    var last := groups[|groups| - 1];
    assert groups == init + [last];
    if g == last {
      var rows := Rows(camel, projectName, g.name, g.files);
      var i :| 0 <= i < |g.files| && g.files[i] == f;
      assert rows[i] == Row(camel, projectName, g.name, f);
      assert Row(camel, projectName, g.name, f) in GroupLines(camel, projectName, g);
    } else {
      RowInDeclaration(camel, projectName, init, g, f);
    }
  }

  // ---------------------------------------------------------------------------
  // The template

  /** A non-empty template receives the declaration in place of the first tag;
      later tags stay. */
  lemma ReadmeOutReplacesFirstTag(template: string, tag: string, declaration: string, i: nat)
    requires template != "" && FirstAt(template, tag, i)
    ensures ReadmeOut(Some(template), tag, declaration) == template[..i] + declaration + template[i + |tag|..]
  {
    ReplaceFirstAt(template, tag, declaration, i);
  }

  /** A template without the tag is written unchanged, without the declaration. */
  lemma ReadmeOutWithoutTag(template: string, tag: string, declaration: string)
    requires template != "" && !Contains(template, tag)
    ensures ReadmeOut(Some(template), tag, declaration) == template
  {
  }

  /** Without a template, or with an empty one, the declaration is the README. */
  lemma ReadmeOutWithoutTemplate(template: Option<string>, tag: string, declaration: string)
    requires template.None? || template.value == ""
    ensures ReadmeOut(template, tag, declaration) == declaration
  {
  }

  /** The tag searched for is never empty. */
  lemma DeclarationTagNonEmpty(options: ReadmeOptions)
    ensures DeclarationTag(options) != ""
    ensures options.declarationTag.None? || options.declarationTag.value == "" ==>
              DeclarationTag(options) == DefaultDeclarationTag
  {
  }
}
