# icons-transpiler: a Dafny model

This project models the core of icons-transpiler. The tool reads a folder of SVG
icons and generates:

- a React component (`index.tsx`) for each icon;
- a Vue component (`index.vue`) for each icon;
- one barrel `index.ts` per folder;
- optionally, a README section that lists every icon in a markdown table.

The model covers four pieces:

- **Markup rewriter** (`markup.dfy`, facts in `markup_facts.dfy`): `addProp`,
  `addElement` and `convertDataAttributesToJsxAttributes`. Each regular
  expression these use is written out as an explicit string search. A global
  replace works in "leftmost match, replace, continue after it" form.
- **Component assembly** (`components.dfy`, facts in `components_facts.dfy`):
  the React and Vue template literals and the fixed order in which they go
  through the rewriter. Also the barrel index text that `createIndexFile`
  builds.
- **The walk of `main`** (`walk.dfy`, facts in `walk_facts.dfy`):
  - the folder list (`.` then the subdirectories);
  - the collision guard;
  - skipping folders without `.svg` files;
  - resetting output subfolders;
  - the per-file generation;
  - the index files.

  The host is a value of function type. Every change the run makes to the
  file system is recorded, in order, as an `Effect`. An exception thrown while
  building a component ends the run with `Threw`. The walk and its facts are
  stated for any pair of component builders (`Templates`). The methods that
  model `main` use `SourceTemplates`, the pair built from the models of
  `createReactComponent` and `createVueComponent`.
- **The readme builder** (`readme.dfy`, facts in `readme_facts.dfy`) and the
  path helpers of `src/utils.ts` (`paths.dfy`). `text.dfy` holds the string
  operations the JavaScript calls:
  - `indexOf`;
  - `replace` with a string pattern;
  - `split` and `join`;
  - ASCII case mapping.

`camelCase` is outside the model (the `camelcase` package). So are `path.resolve`,
`path.join`, `readDir`, `isDirectory`, `exists` and `readFile`. Each is a
parameter of function type, and nothing is assumed about it unless a lemma's
`requires` says so.

The model follows the code as written:

- **A Vue component needs a `<path`.** The fallback in `addElement`
  (src/svg-to-react-component.ts:243-245) puts the `<title>` before `</svg>`
  when an icon has no `<path>`. But both templates call
  `addProp(…, 'path', …)` first, and its `match(…)![0]` throws on a path-less
  SVG. `ComponentFacts.VueComponentNeedsPath` proves that, for a component
  name without `<`, `createVueComponent` fails exactly when the SVG holds no
  `<path`.
  `ComponentFacts.ReactComponentErrors` gives the React side.
- **`addProp` rewrites every tag.** It rewrites the first `<target…>` tag and
  writes that one rewritten tag over every `<target…>` tag.
  `MarkupFacts.AddPropRewritesEveryTag` proves this, so the attributes of the
  later paths are lost.
- **An empty `fill=""` is ignored.** `addProp` finds the attribute, but the
  pattern `prop="[^"]+"` does not match an empty value, so the tag stays as
  it is (`MarkupFacts.RewriteTagIgnoresEmptyAttribute`).
- **`basePath` stops at the first line.** JavaScript's `.` does not match a
  line terminator, so a separator on a later line survives
  (`Paths.BasePathKeepsLaterLines`).
- **The README name strips the first `.svg`.** The README name is
  `file.replace('.svg', '')`, which drops the first `.svg`. The component
  name drops only the one at the end.
  `ReadmeFacts.ReadmeNameCanDifferFromComponentFile` shows that for
  `a.svgb.svg` the README lists `ab.svg` for the component made from `a.svgb`.

## Model

| member | source | states |
|---|---|---|
| Paths.BasePath | src/utils.ts:15 | the result is a suffix of the path |
| Paths.FirstLineLength | src/utils.ts:15 | the first line ends at the first line terminator or at the end of the text |
| Paths.LastSeparator | src/utils.ts:15 | the index of the last `/` or `\`, or none when there is none |
| Paths.BasePathPlain | src/utils.ts:15 | a path without separators is returned unchanged |
| Paths.BasePathNoSeparator | src/utils.ts:15 | on a one-line path the result contains no `/` or `\` |
| Paths.BasePathKeepsLaterLines | src/utils.ts:15 | a separator after the first line terminator is not removed |
| Paths.BasePathIdempotent | src/utils.ts:15 | `basePath(basePath(s)) == basePath(s)` |
| Paths.FirstLineDrop | src/utils.ts:15 | dropping characters of the first line shortens it by as many |
| Paths.GetPathFromABase | src/utils.ts:58-67 | throws `Could not match base to file` exactly when base's first segment is not a segment of file; otherwise the segments from the first match on, joined by `/`, which start with that segment and are a suffix of file |
| Paths.JoinStartsWithFirst | src/utils.ts:66 | a `/`-join starts with its first segment |
| Text.FindFrom | src/svg-to-react-component.ts:242 | `indexOf` from a position: the first occurrence at or after it, or none |
| Text.IndexOf | src/svg-to-react-component.ts:242 | the first occurrence, and none exactly when the pattern does not occur |
| Text.IndexOfFirst | src/svg-to-react-component.ts:242 | an occurrence with none before it is the one `indexOf` returns |
| Text.FindChar | src/svg-to-react-component.ts:227 | the first occurrence of a character at or after a position |
| Text.ReplaceFirstAt | src/svg-to-react-component.ts:246 | a string-pattern `replace` splices the replacement over the first occurrence |
| Text.Split | src/utils.ts:59-60 | `split` gives at least one part and no part contains the separator |
| Text.JoinSplit | src/utils.ts:60-66 | joining the split parts gives the text back |
| Text.SplitJoin | src/utils.ts:60-66 | splitting a join of separator-free parts gives the parts back |
| Text.JoinTailIsSuffix | src/utils.ts:65-66 | joining the parts from k on gives a suffix of the whole join |
| Text.SplitTerminated | src/svg-to-react-component.ts:108-110 | text built by `out += line + '\n'` splits into its lines and one empty tail |
| Text.SplitIntroduced | src/svg-to-readme.ts:42-60 | text built by `out += '\n' + line` splits into an empty head and its lines |
| Text.IntroducedAppend | src/svg-to-readme.ts:42-60 | the text of two line lists one after the other is the two texts concatenated |
| Text.Lower | src/svg-to-readme.ts:57 | `toLowerCase` (ASCII) maps each character and keeps the length |
| Markup.FirstTag | src/svg-to-react-component.ts:227 | the leftmost match of `<name([^>]*)>`; none exactly when there is no such tag |
| Markup.QuotedAttrFrom | src/svg-to-react-component.ts:229 | the leftmost match of `prop="[^"]+"` at or after a position |
| Markup.QuotedEnd | src/svg-to-react-component.ts:229 | the closing quote of a non-empty, quote-free value |
| Markup.AddProp | src/svg-to-react-component.ts:208-236 | fails with the `null[0]` TypeError exactly when the html has no `<target…>` tag |
| Markup.AddElement | src/svg-to-react-component.ts:238-247 | `<name>content</name>` is inserted just before the first `<sibling`; with no sibling, just before the first `</svg>`; with neither, the html is unchanged |
| Markup.InsertedBefore | src/svg-to-react-component.ts:244-246 | replacing the first `p` by `full + p` inserts `full` just before it and changes nothing else |
| Markup.InsertedBeforeAt | src/svg-to-react-component.ts:244-246 | when the first `p` is at `i`, replacing it by `full + p` gives the text with `full` inserted at `i` |
| Markup.NameRunEnd | src/svg-to-react-component.ts:196 | the end of the run of `[a-zA-Z0-9-]` characters |
| Markup.DataAttrAt | src/svg-to-react-component.ts:196 | a match of `([a-zA-Z0-9-]+)="([^"]+)"` at a position ends inside the text |
| Markup.DataAttrFrom | src/svg-to-react-component.ts:196 | a match found from a position starts at or after it, and is a whole match there that ends inside the text |
| Markup.DataAttrFromLeftmost | src/svg-to-react-component.ts:196 | the match found is the leftmost one at or after the position, and none is found only when no match starts there or later |
| Markup.ConvertDataAttributesToJsxAttributes | src/svg-to-react-component.ts:195-206 | the loop result is each match replaced in order by its renamed form |
| MarkupFacts.InsertBeforeCloseOnce | src/svg-to-react-component.ts:231 | on a tag whose only `>` is its last character, ` binding` goes before the final `/>` or `>` |
| MarkupFacts.RewriteTagWithoutAttribute | src/svg-to-react-component.ts:228-231 | a tag without `prop="` gets ` binding` before its closing `/>` or `>` |
| MarkupFacts.NoOccurrenceAfter | src/svg-to-react-component.ts:229 | past the only `prop="` of a tag, no other match of the attribute pattern starts |
| MarkupFacts.RewriteTagReplacesAttribute | src/svg-to-react-component.ts:228-229 | a tag's only `prop="value"` (non-empty) is replaced by the binding, not duplicated |
| MarkupFacts.RewriteTagIgnoresEmptyAttribute | src/svg-to-react-component.ts:228-229 | a tag whose only `prop="` opens an empty value is left unchanged |
| MarkupFacts.OpeningAfterGap | src/svg-to-react-component.ts:227 | after text without `<name`, the first `<name` is where the following tag starts |
| MarkupFacts.FirstTagAfterGap | src/svg-to-react-component.ts:227 | after text without `<name`, the first tag is the one that follows |
| MarkupFacts.ReplaceAllTagsAssembled | src/svg-to-react-component.ts:234 | the global replace puts the replacement in place of every `<name…>` tag and keeps the text between them |
| MarkupFacts.AddPropRewritesEveryTag | src/svg-to-react-component.ts:208-236 | with no tag it fails; otherwise every `<target…>` tag becomes the rewrite of the first one, with binding `name={value}` (JSX) or `:name="value"` (Vue) |
| MarkupFacts.DataAttrInSlice | src/svg-to-react-component.ts:196-200 | the text of a match, taken alone, is again one whole match |
| MarkupFacts.DataAttributesAreMatches | src/svg-to-react-component.ts:196 | every text `match(/…/g)` returns is one whole match |
| MarkupFacts.DataAttributeParts | src/svg-to-react-component.ts:200 | a match is `name="value"` with a non-empty name of `[a-zA-Z0-9-]` and a non-empty, quote-free value |
| MarkupFacts.ConvertRenamesNamesOnly | src/svg-to-react-component.ts:199-203 | each matched attribute keeps its value and gets `camelCase(name)` as its name |
| MarkupFacts.RenamedParts | src/svg-to-react-component.ts:199-203 | a whole match is `name="value"` with a non-empty name run and a quote-free value, and its replacement is `camelCase(name)="value"` |
| MarkupFacts.ReplaceFirstSame | src/svg-to-react-component.ts:202 | replacing a text by itself changes nothing |
| MarkupFacts.RenameEachIdentity | src/svg-to-react-component.ts:199-203 | when `camelCase` keeps every name, the loop changes nothing |
| MarkupFacts.ConvertKeepsMarkupWhenNamesAreCamel | src/svg-to-react-component.ts:195-206 | when every matched name is already camel case the markup is returned unchanged |
| MarkupFacts.ConvertWithoutMatches | src/svg-to-react-component.ts:197 | markup with no `name="non-empty"` match is returned unchanged |
| Components.ExportStatements | src/svg-to-react-component.ts:108-110 | one export statement per component, in order |
| Components.CreateIndexFile | src/svg-to-react-component.ts:105-114 | the index goes to `join(outputDir, 'index.ts')` and its text is each export statement followed by a newline |
| ComponentFacts.ExportStatementOneLine | src/svg-to-react-component.ts:109 | an export statement for a name without newline is one line |
| ComponentFacts.IndexTextLines | src/svg-to-react-component.ts:107-110 | the index text splits into exactly one `export { default as X} from './X';` line per component, in order |
| ComponentFacts.VueHeadWithoutPath | src/svg-to-react-component.ts:156-175 | the Vue template before the SVG holds no `<path` |
| ComponentFacts.VueTailWithoutPath | src/svg-to-react-component.ts:177-178 | the Vue template after the SVG holds no `<path` and has a `>` |
| ComponentFacts.TagLineWithoutPath | src/svg-to-react-component.ts:157-177 | each tag line of the Vue template (script and template open and close) holds no `<path` |
| ComponentFacts.WrappedPath | src/svg-to-react-component.ts:175-177 | text wrapped around an SVG holds `<path` exactly when the SVG does, and then has a `<path…>` tag |
| ComponentFacts.VueTemplatePath | src/svg-to-react-component.ts:156-178 | the Vue template holds `<path` exactly when the SVG does |
| ComponentFacts.VueComponentNeedsPath | src/svg-to-react-component.ts:151-193 | for a component name without `<`, `createVueComponent` succeeds exactly when the SVG holds `<path`, and otherwise throws the `null[0]` TypeError |
| ComponentFacts.ReplaceQuotedAttrsKeepsPrefix | src/svg-to-react-component.ts:229 | the attribute replace keeps the text before its first match |
| ComponentFacts.InsertBeforeCloseKeepsPrefix | src/svg-to-react-component.ts:231 | the closing-bracket rewrite keeps the text before the first `>` |
| ComponentFacts.RewriteTagKeepsOpening | src/svg-to-react-component.ts:228-231 | the rewritten tag still opens with `<name` |
| ComponentFacts.ReplaceAllTagsFirst | src/svg-to-react-component.ts:234 | after the global replace, the first `<name` is where the first tag was |
| ComponentFacts.AddPropKeepsFirstOpening | src/svg-to-react-component.ts:208-236 | on html with a `<target…>` tag, when the attribute name cannot start `<target`, `addProp` succeeds and the first `<target` stays where the first tag was |
| ComponentFacts.AddFillKeepsFirstPath | src/svg-to-react-component.ts:180 | binding `fill` on the paths succeeds and the first `<path` stays where the first path tag was |
| ComponentFacts.FillThenElement | src/svg-to-react-component.ts:180-181 | `addProp('fill', …, 'path')` then `addElement(…, 'path')` puts the element just before the first path |
| ComponentFacts.VueTitleBeforeFirstPath | src/svg-to-react-component.ts:180-181 | the Vue `<title>` with the title prop or the default title goes just before the first `<path` of the filled template |
| ComponentFacts.ReactComponentErrors | src/svg-to-react-component.ts:137-140 | `createReactComponent` throws the `null[0]` TypeError when the converted text has no `<path…>` tag, and any failure of the template pipeline is that error |
| Walk.Directories | src/svg-to-react-component.ts:27-28 | the listing's names that are directories, and only those (the filter of the listing, so in listing order by definition) |
| Walk.SvgFiles | src/svg-to-react-component.ts:44 | the names that end in `.svg`, and only those (the filter of the listing, so in listing order by definition) |
| Walk.StripSvgExtension | src/svg-to-react-component.ts:60 | a trailing `.svg` is removed; other names are unchanged |
| Walk.ComponentNames | src/svg-to-react-component.ts:58-64 | `componentNamesForIndex`: one PascalCase name per `.svg` file, in order |
| Walk.NonEmptyFolders | src/svg-to-react-component.ts:42-45 | the folders kept are exactly those that hold a `.svg` file |
| Walk.FindResolving | src/svg-to-react-component.ts:33 | the first folder at or after a position that resolves to the target |
| Walk.FileStepsThrown | src/svg-to-react-component.ts:58-87 | once an exception is thrown, later files change nothing |
| Walk.FolderStepsThrown | src/svg-to-react-component.ts:42-92 | once an exception is thrown, later folders change nothing |
| Walk.FileStepsAppend | src/svg-to-react-component.ts:58-87 | the file loop over `a + b` is the loop over `a`, then over `b` |
| Walk.FolderStepsAppend | src/svg-to-react-component.ts:42-92 | the folder loop over `a + b` is the loop over `a`, then over `b` |
| Walk.FolderStepCompleted | src/svg-to-react-component.ts:89-91 | a folder that does not throw ends with its index written and its path pushed |
| Walk.ThrownFileStepsFinal | src/svg-to-react-component.ts:58-87 | a thrown state is final for the file loop |
| Walk.ThrownFolderStepsFinal | src/svg-to-react-component.ts:42-92 | a thrown state is final for the folder loop |
| Walk.WriteComponent | src/svg-to-react-component.ts:69-85 | a created component is written to its file and recorded as generated; an exception thrown creating it is recorded and nothing is written |
| Walk.CreateComponents | src/svg-to-react-component.ts:59-86 | for one `.svg` file, the React and then the Vue component when requested, written at `outputPath/Name/index.tsx` and `index.vue` |
| Walk.ResetOutputDir | src/svg-to-react-component.ts:47-52 | a non-root folder's output directory is removed when it exists, then created |
| Walk.CreateFolderComponents | src/svg-to-react-component.ts:54-87 | the file loop, and the component names that feed the index |
| Walk.TranspileFolder | src/svg-to-react-component.ts:43-91 | one folder: skipped without `.svg` files, otherwise reset, components, then its index |
| Walk.WalkFolders | src/svg-to-react-component.ts:42-92 | the folder loop, folder by folder |
| Walk.SvgToReactComponent | src/svg-to-react-component.ts:20-103 | the whole run equals `Transpile`: create the output root if missing, the folder list, the guard, the walk, the declaration compile |
| WalkFacts.IndexFiles | src/svg-to-react-component.ts:90-91 | one index path per folder, in order |
| WalkFacts.CollisionStopsTheRun | src/svg-to-react-component.ts:33-40 | the run stops at the guard exactly when a folder resolves to the entry; it then reports the error message and writes, removes and compiles nothing |
| WalkFacts.FindResolvingFirst | src/svg-to-react-component.ts:33 | `find` returns the first folder that resolves to the target |
| WalkFacts.CollisionDetected | src/svg-to-react-component.ts:33-34 | a first resolving folder with a non-empty name makes the run a collision |
| WalkFacts.EmitKeeps | src/svg-to-react-component.ts:70-85 | writing a component only appends a component file write |
| WalkFacts.FileStepKeeps | src/svg-to-react-component.ts:58-87 | one file adds only component writes |
| WalkFacts.FileStepsKeep | src/svg-to-react-component.ts:58-87 | the file loop keeps earlier effects and only adds component writes |
| WalkFacts.FolderStepKeeps | src/svg-to-react-component.ts:42-92 | one folder keeps earlier effects and adds only its own resets and writes |
| WalkFacts.FolderEffectWiden | src/svg-to-react-component.ts:42-92 | an effect of some folders is an effect of any list that holds them |
| WalkFacts.FolderStepsKeep | src/svg-to-react-component.ts:42-92 | the folder loop keeps earlier effects and adds only folder effects |
| WalkFacts.FolderStepIndex | src/svg-to-react-component.ts:89-91 | a folder that does not throw adds its index exactly when it holds `.svg` files |
| WalkFacts.FolderStepsIndexList | src/svg-to-react-component.ts:42-92 | a walk that does not throw adds to the index list one path per folder with `.svg` files, in folder order |
| WalkFacts.FolderStepsIndexWrites | src/svg-to-react-component.ts:89-91 | a walk that does not throw writes each folder's index text, the export lines of its component names |
| WalkFacts.FolderStepsIndexes | src/svg-to-react-component.ts:42-92 | a walk that does not throw lists the index of each non-empty folder, in order, and writes each |
| WalkFacts.CompletedRunIndexes | src/svg-to-react-component.ts:26-100 | a complete run reports one index file per folder with `.svg` files, in folder order; each index text lists that folder's component names in file order; the last effect compiles the index files |
| WalkFacts.OnlySubfoldersAreReset | src/svg-to-react-component.ts:21-52 | a removed directory is the existing output directory of a non-root folder with `.svg` files; a created one is that or the missing output root |
| WalkFacts.OutputRootNeverRemoved | src/svg-to-react-component.ts:21-52 | when no subfolder resolves to the output root, the output root is never removed |
| Readme.Capitalize | src/svg-to-readme.ts:73-75 | `captialize` keeps the length |
| Readme.EscapeSpaces | src/svg-to-readme.ts:34 | the escaped path contains no space, and a path without spaces is unchanged |
| Readme.IconFiles | src/svg-to-readme.ts:31-36 | one entry per `.svg` file: the name without its first `.svg`, and the joined path with spaces escaped |
| Readme.Rows | src/svg-to-readme.ts:52-59 | one table row per file, in order |
| Readme.CollectGroups | src/svg-to-readme.ts:23-38 | the collecting loop builds `allSvgFiles` = `Groups` of the folders |
| Readme.AddHeader | src/svg-to-readme.ts:45-50 | adds the heading (except for `.`) and the two table header lines |
| Readme.AddRows | src/svg-to-readme.ts:52-59 | adds one row line per file, in order |
| Readme.BuildDeclaration | src/svg-to-readme.ts:42-60 | the nested `+=` loops build exactly the declaration of the groups |
| Readme.SvgToReadme | src/svg-to-readme.ts:14-71 | writes to `path.join(output)` the text `ReadmeText` |
| ReadmeFacts.CapitalizeFirstOnly | src/svg-to-readme.ts:73-75 | only the first character is upper-cased; the empty string maps to itself |
| ReadmeFacts.CapitalizeLower | src/svg-to-readme.ts:57-75 | lower-casing a capitalised name gives the lower-cased name |
| ReadmeFacts.CapitalizeIdempotent | src/svg-to-readme.ts:73-75 | capitalising twice is capitalising once |
| ReadmeFacts.HeadingOfFolder | src/svg-to-readme.ts:45-47 | the root folder's group has no heading; every other group has `\n\n### Name` |
| ReadmeFacts.ImportPathOfFolder | src/svg-to-readme.ts:55-57 | the import path is `projectName/` plus the folder name in lower case |
| ReadmeFacts.EscapeSpacesAppend | src/svg-to-readme.ts:34 | escaping works character by character |
| ReadmeFacts.ReadmeNameDropsFirst | src/svg-to-readme.ts:33 | the name drops the first `.svg`, wherever it is |
| ReadmeFacts.ReadmeNameMatchesComponentFile | src/svg-to-readme.ts:33 | when the only `.svg` is the extension, the name is the component's stem |
| ReadmeFacts.ReadmeNameCanDifferFromComponentFile | src/svg-to-readme.ts:33 | `a.svgb.svg` is listed as `ab.svg`, while its component stem is `a.svgb` |
| ReadmeFacts.GroupsAppend | src/svg-to-readme.ts:23-38 | the groups of `a + b` are the groups of `a` then those of `b` |
| ReadmeFacts.GroupsFollowFolders | src/svg-to-readme.ts:19-38 | one group per folder with `.svg` files, in folder order, named by `captialize`, listing that folder's files |
| ReadmeFacts.GroupsHaveFiles | src/svg-to-readme.ts:27-44 | no group is empty, so a folder without `.svg` files gets no table |
| ReadmeFacts.RootGroupFirst | src/svg-to-readme.ts:19-30 | when the entry holds `.svg` files, its group comes first, named `.`, without a heading |
| ReadmeFacts.DeclarationLinesWithoutNewline | src/svg-to-readme.ts:42-60 | with newline-free names, paths and project name, no declaration line holds a newline |
| ReadmeFacts.DeclarationLayout | src/svg-to-readme.ts:42-60 | the declaration, split at newlines, is an empty line and then each group's heading, two header lines and rows, in order |
| ReadmeFacts.RowInDeclaration | src/svg-to-readme.ts:52-58 | every file of every group has its row in the declaration |
| ReadmeFacts.ReadmeOutReplacesFirstTag | src/svg-to-readme.ts:63 | a non-empty template gets the declaration in place of the first tag; later tags stay |
| ReadmeFacts.ReadmeOutWithoutTag | src/svg-to-readme.ts:63 | a template without the tag is written unchanged |
| ReadmeFacts.ReadmeOutWithoutTemplate | src/svg-to-readme.ts:40-63 | without a template, or with an empty one, the README is exactly the declaration |
| ReadmeFacts.DeclarationTagNonEmpty | src/svg-to-readme.ts:62 | the tag is never empty; it is `[icons-declaration]` when none or an empty one is given |

## Left out

- `prettier.format` is a foreign formatter. Every text here is the one handed to it (src/svg-to-react-component.ts:111,142,183).
- The formatter is assumed never to throw. In the source it runs outside the `try` of `createReactComponent` and `createVueComponent`, and in `createIndexFile`, so a parse failure there (an `<?xml …?>` prolog or an `<!-- … -->` comment in the TSX, say) would reject the awaited call and end `main`. The model has no such path, so a run it reports as `Completed` (WalkFacts.CompletedRunIndexes) can be one the source ends with that exception.
- `compileTsToJs` (the TypeScript compiler) is foreign. The run records it as one `CompileDeclarations` effect naming the index files.
- `logTranspileResult`, `getFileSize` and the table they print are console output, file sizes and `Promise.all`. The readme's `basePath(outputFile)` for the log is left out as well.
- The `console.error` of a failed `writeFile` in `createReactComponent`/`createVueComponent` is left out. Writes are recorded as effects and never fail in the model.
- The unawaited `mkdir(path.resolve(outputPath, componentName))` is left out. It is not awaited, so it races with the writes after it; the model records no effect for it.
- The file system is read as a snapshot taken when a run starts. `exists`, `readDir`, `isDirectory` (`fs.lstatSync`) and `readFile` are therefore not modelled as seeing the run's own changes.
- Path semantics are left out: `path.resolve` and `path.join` are opaque functions of their segments.
- `camelCase` is an opaque function. Properties that need it to keep a name (`fill`, attribute names) say so in their `requires`.
- `$` patterns (`$&`, `$1`, `$$`) in replacement strings are not interpreted, except the `$&` of the `/>|>` rewrite in `addProp`. A `$` in a rewritten tag, a renamed attribute or the declaration is taken literally.
- Regular-expression metacharacters inside `propName` or `targetElement` are read as plain characters. The source only passes plain names.
- Case mapping is ASCII only (`toUpperCase` in `captialize`, `toLowerCase` of the import path). Unicode special cases are not modelled.
- `baseDir` (src/utils.ts:17-18) depends on `lstatSync` and is not used by the core.
- `src/main.ts` (command-line dispatch and configuration loading) is not part of this model.
- `projectDir` of the component options is not read by `main`.
- ComponentFacts.ReactComponentErrors: states only the failure side of `createReactComponent`. The attribute conversion runs over the whole template first, so where the React `<title>` lands is not proved. The Vue counterpart (`ComponentFacts.VueTitleBeforeFirstPath`) is proved.
- Paths.BasePathNoSeparator: proved only for paths without line terminators, because a separator after the first line survives in the source (`Paths.BasePathKeepsLaterLines`).
- ReadmeFacts.DeclarationLayout: assumes that names, paths, the project name and `camelCase` results hold no newline. The line structure only exists under that assumption.
