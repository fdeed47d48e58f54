/** The directory walk of `main` in `src/svg-to-react-component.ts`, over an
    abstract host: the file system is read through functions fixed for the
    whole run, and every change the run makes to it is recorded, in order, as
    an effect. */
module Walk {
  import opened Text
  import opened Markup
  import opened Components

  /** The host calls `main` makes.  `resolve` and `join` take their path
      segments; `readDir`, `isDirectory`, `exists` and `readFile` answer for
      the state of the file system when the run starts. */
  datatype Host = Host(
    resolve: seq<string> -> string,
    join: seq<string> -> string,
    isDirectory: string -> bool,
    readDir: string -> seq<string>,
    readFile: string -> string,
    pathExists: string -> bool,
    camel: CamelCase)

  /** `Options` without `projectDir`, which `main` does not read. */
  datatype Options = Options(entry: string, output: string, generate: seq<string>)

  /** One entry of `generatedFiles`. */
  datatype Generated = Generated(name: string, file: string)

  /** What the run does to the outside world. */
  datatype Effect =
    | MakeDir(path: string)
    | RemoveDir(path: string)
    | WriteFile(path: string, text: string)
    | ReportError(message: string)
    | CompileDeclarations(files: seq<string>)

  /** The accumulators of `main`, and the message of the exception that ended
      the run early, if any. */
  datatype State = State(effects: seq<Effect>, generated: seq<Generated>, indexFiles: seq<string>,
                         thrown: Option<string>)

  datatype Outcome =
    | Completed(generated: seq<Generated>, indexFiles: seq<string>)
    | Collided(message: string)
    | Threw(message: string)

  datatype Report = Report(outcome: Outcome, effects: seq<Effect>)

  /** `createReactComponent` and `createVueComponent`, each from the SVG text
      and the component name.  The walk is stated for any pair; `main` calls
      the pair `SourceTemplates` builds from the models in `Components`. */
  datatype Templates = Templates(react: (string, string) -> Result<string>,
                                 vue: (string, string) -> Result<string>)

  function SourceTemplates(camel: CamelCase): (r: Templates)
    ensures forall svg, name :: r.react(svg, name) == ReactComponent(camel, svg, name)
    ensures forall svg, name :: r.vue(svg, name) == VueComponent(camel, svg, name)
  {
    Templates((svg, name) => ReactComponent(camel, svg, name), (svg, name) => VueComponent(camel, svg, name))
  }

  // ---------------------------------------------------------------------------
  // The folders and their files

  /** The entry's names that are directories, in listing order. */
  function Directories(host: Host, entry: string, names: seq<string>): (r: seq<string>)
    ensures forall x :: x in r <==> x in names && host.isDirectory(host.join([entry, x]))
  {
    if names == [] then []
    else
      var init := Directories(host, entry, names[..|names| - 1]);
      var last := names[|names| - 1];
      assert names == names[..|names| - 1] + [last];
      if host.isDirectory(host.join([entry, last])) then init + [last] else init
  }

  /** `folders`: the entry itself, then its subdirectories. */
  function Folders(host: Host, entry: string): seq<string>
  {
    ["."] + Directories(host, entry, host.readDir(entry))
  }

  /** The names that end in `.svg`, in listing order. */
  function SvgFiles(names: seq<string>): (r: seq<string>)
    ensures forall x :: x in r <==> x in names && EndsWith(x, ".svg")
  {
    if names == [] then []
    else
      var init := SvgFiles(names[..|names| - 1]);
      var last := names[|names| - 1];
      assert names == names[..|names| - 1] + [last];
      if EndsWith(last, ".svg") then init + [last] else init
  }

  /** `svgFile.replace(/\.svg$/, '')`: `$` without the `m` flag is the end of the text. */
  function StripSvgExtension(svgFile: string): (r: string)
    ensures EndsWith(svgFile, ".svg") ==> r + ".svg" == svgFile
    ensures !EndsWith(svgFile, ".svg") ==> r == svgFile
  {
    if EndsWith(svgFile, ".svg") then svgFile[..|svgFile| - 4] else svgFile
  }

  function ComponentName(camel: CamelCase, svgFile: string): string
  {
    camel(StripSvgExtension(svgFile), true)
  }

  /** `componentNamesForIndex` after the given files. */
  function ComponentNames(camel: CamelCase, svgFiles: seq<string>): (r: seq<string>)
    ensures |r| == |svgFiles|
    ensures forall i :: 0 <= i < |svgFiles| ==> r[i] == ComponentName(camel, svgFiles[i])
  {
    if svgFiles == [] then []
    else ComponentNames(camel, svgFiles[..|svgFiles| - 1]) + [ComponentName(camel, svgFiles[|svgFiles| - 1])]
  }

  /** The index of the first of `folders[from..]` that resolves to `target`. */
  function FindResolving(host: Host, folders: seq<string>, target: string, from: nat): (r: Option<nat>)
    ensures r.Some? ==> from <= r.value < |folders| && host.resolve([folders[r.value]]) == target
    ensures r.Some? ==> forall j :: from <= j < r.value ==> host.resolve([folders[j]]) != target
    ensures r.None? ==> forall j :: from <= j < |folders| ==> host.resolve([folders[j]]) != target
    decreases |folders| - from
  {
    if from >= |folders| then None
    else if host.resolve([folders[from]]) == target then Some(from)
    else FindResolving(host, folders, target, from + 1)
  }

  /** `folders.find(folder => path.resolve(folder) === target)`. */
  function FirstResolvingTo(host: Host, folders: seq<string>, target: string): Option<string>
  {
    match FindResolving(host, folders, target, 0)
    case None => None
    case Some(i) => Some(folders[i])
  }

  /** The folder the collision guard reports: the first one that resolves to
      the entry, when that name is truthy. */
  function CollidingFolder(host: Host, folders: seq<string>, entry: string): Option<string>
  {
    match FirstResolvingTo(host, folders, host.resolve([entry]))
    case None => None
    case Some(f) => if f != "" then Some(f) else None
  }

  function CollisionMessage(host: Host, folder: string, entry: string): string
  {
    "Error! Folder \"" + host.resolve([folder]) + "\" can't be the same name as the entry folder \"" + entry + ".\""
  }

  // ---------------------------------------------------------------------------
  // One step of the walk

  /** The output directory of a folder (`path.resolve(options.output, folder)`). */
  function OutputDir(host: Host, options: Options, folder: string): string
  {
    host.resolve([options.output, folder])
  }

  /** The index file `createIndexFile` writes for a folder. */
  function IndexFile(host: Host, options: Options, folder: string): string
  {
    host.join([OutputDir(host, options, folder), "index.ts"])
  }

  /** The `.svg` files of one folder of the entry. */
  function SvgFilesOf(host: Host, entry: string, folder: string): seq<string>
  {
    SvgFiles(host.readDir(host.join([entry, folder])))
  }

  /** The folders that hold at least one `.svg` file, in order. */
  function NonEmptyFolders(host: Host, entry: string, folders: seq<string>): (r: seq<string>)
    ensures forall f :: f in r <==> f in folders && SvgFilesOf(host, entry, f) != []
  {
    if folders == [] then []
    else
      var init := NonEmptyFolders(host, entry, folders[..|folders| - 1]);
      var last := folders[|folders| - 1];
      assert folders == folders[..|folders| - 1] + [last];
      if SvgFilesOf(host, entry, last) != [] then init + [last] else init
  }

  /** Writing one generated component, or the exception that creating it threw. */
  function Emit(st: State, created: Result<string>, componentName: string, file: string): State
  {
    if st.thrown.Some? then st
    else match created
      case Err(message) => st.(thrown := Some(message))
      case Ok(text) => st.(effects := st.effects + [WriteFile(file, text)],
                           generated := st.generated + [Generated(componentName, file)])
  }

  /** The body of the inner loop, for one `.svg` file of `folder`. */
  function FileStep(host: Host, tpl: Templates, options: Options, folder: string, st: State, svgFile: string): State
  {
    var outputPath := host.join([options.output, folder]);
    var svgFileContent := host.readFile(host.join([options.entry, folder, svgFile]));
    var componentName := ComponentName(host.camel, svgFile);
    var afterReact :=
      if "react" in options.generate then
        Emit(st, tpl.react(svgFileContent, componentName), componentName,
             host.resolve([outputPath, componentName, "index.tsx"]))
      else st;
    if "vue" in options.generate then
      Emit(afterReact, tpl.vue(svgFileContent, componentName), componentName,
           host.resolve([outputPath, componentName, "index.vue"]))
    else afterReact
  }

  function FileSteps(host: Host, tpl: Templates, options: Options, folder: string, st: State, svgFiles: seq<string>): State
  {
    if svgFiles == [] then st
    else FileStep(host, tpl, options, folder, FileSteps(host, tpl, options, folder, st, svgFiles[..|svgFiles| - 1]),
                  svgFiles[|svgFiles| - 1])
  }

  /** Removing and re-creating the output directory of a non-root folder. */
  function ResetEffects(host: Host, options: Options, folder: string): seq<Effect>
  {
    if folder == "." then []
    else
      var outDir := OutputDir(host, options, folder);
      (if host.pathExists(outDir) then [RemoveDir(outDir)] else []) + [MakeDir(outDir)]
  }

  /** The body of the outer loop, for one folder. */
  function FolderStep(host: Host, tpl: Templates, options: Options, st: State, folder: string): State
  {
    var svgFiles := SvgFilesOf(host, options.entry, folder);
    if st.thrown.Some? || svgFiles == [] then st
    else
      var afterFiles := FileSteps(host, tpl, options, folder,
                                  st.(effects := st.effects + ResetEffects(host, options, folder)), svgFiles);
      if afterFiles.thrown.Some? then afterFiles
      else
        var indexFile := IndexFile(host, options, folder);
        afterFiles.(effects := afterFiles.effects
                               + [WriteFile(indexFile, IndexText(ComponentNames(host.camel, svgFiles)))],
                    indexFiles := afterFiles.indexFiles + [indexFile])
  }

  function FolderSteps(host: Host, tpl: Templates, options: Options, st: State, folders: seq<string>): State
  {
    if folders == [] then st
    else FolderStep(host, tpl, options, FolderSteps(host, tpl, options, st, folders[..|folders| - 1]), folders[|folders| - 1])
  }

  /** Creating the output root when it is missing. */
  function Prelude(host: Host, options: Options): seq<Effect>
  {
    var outputDir := host.resolve([options.output]);
    if host.pathExists(outputDir) then [] else [MakeDir(outputDir)]
  }

  /** What `main(options)` does and how it ends. */
  function Transpile(host: Host, tpl: Templates, options: Options): Report
  {
    var folders := Folders(host, options.entry);
    match CollidingFolder(host, folders, options.entry)
    case Some(f) =>
      var message := CollisionMessage(host, f, options.entry);
      Report(Collided(message), Prelude(host, options) + [ReportError(message)])
    case None =>
      var st := FolderSteps(host, tpl, options, State(Prelude(host, options), [], [], None), folders);
      if st.thrown.Some? then Report(Threw(st.thrown.value), st.effects)
      else Report(Completed(st.generated, st.indexFiles), st.effects + [CompileDeclarations(st.indexFiles)])
  }

  // ---------------------------------------------------------------------------
  // Once thrown, nothing more happens; the folds split at any point

  lemma {:induction false} FileStepsThrown(host: Host, tpl: Templates, options: Options, folder: string, st: State, svgFiles: seq<string>)
    requires st.thrown.Some?
    ensures FileSteps(host, tpl, options, folder, st, svgFiles) == st
  {
    if svgFiles != [] {
      FileStepsThrown(host, tpl, options, folder, st, svgFiles[..|svgFiles| - 1]);
    }
  }

  lemma {:induction false} FolderStepsThrown(host: Host, tpl: Templates, options: Options, st: State, folders: seq<string>)
    requires st.thrown.Some?
    ensures FolderSteps(host, tpl, options, st, folders) == st
  {
    if folders != [] {
      FolderStepsThrown(host, tpl, options, st, folders[..|folders| - 1]);
    }
  }

  lemma {:induction false} FileStepsAppend(host: Host, tpl: Templates, options: Options, folder: string, st: State,
                                           a: seq<string>, b: seq<string>)
    ensures FileSteps(host, tpl, options, folder, st, a + b)
            == FileSteps(host, tpl, options, folder, FileSteps(host, tpl, options, folder, st, a), b)
    decreases |b|
  {
    if b == [] {
      assert a + b == a;
    } else {
      assert (a + b)[..|a + b| - 1] == a + b[..|b| - 1];
      FileStepsAppend(host, tpl, options, folder, st, a, b[..|b| - 1]);
    }
  }

  lemma {:induction false} FolderStepsAppend(host: Host, tpl: Templates, options: Options, st: State, a: seq<string>, b: seq<string>)
    ensures FolderSteps(host, tpl, options, st, a + b) == FolderSteps(host, tpl, options, FolderSteps(host, tpl, options, st, a), b)
    decreases |b|
  {
    if b == [] {
      assert a + b == a;
    } else {
      assert (a + b)[..|a + b| - 1] == a + b[..|b| - 1];
      FolderStepsAppend(host, tpl, options, st, a, b[..|b| - 1]);
    }
  }

  lemma FileStepsSnoc(host: Host, tpl: Templates, options: Options, folder: string, st: State, svgFiles: seq<string>, j: nat)
    requires j < |svgFiles|
    ensures FileSteps(host, tpl, options, folder, st, svgFiles[..j + 1])
            == FileStep(host, tpl, options, folder, FileSteps(host, tpl, options, folder, st, svgFiles[..j]), svgFiles[j])
  {
    assert svgFiles[..j + 1][..j] == svgFiles[..j];
  }

  lemma FolderStepsSnoc(host: Host, tpl: Templates, options: Options, st: State, folders: seq<string>, i: nat)
    requires i < |folders|
    ensures FolderSteps(host, tpl, options, st, folders[..i + 1])
            == FolderStep(host, tpl, options, FolderSteps(host, tpl, options, st, folders[..i]), folders[i])
  {
    assert folders[..i + 1][..i] == folders[..i];
  }

  /** A folder with `.svg` files whose components were all created: its index is written. */
  lemma FolderStepCompleted(host: Host, tpl: Templates, options: Options, st: State, folder: string, afterFiles: State)
    requires st.thrown.None? && SvgFilesOf(host, options.entry, folder) != []
    requires afterFiles == FileSteps(host, tpl, options, folder,
                                     st.(effects := st.effects + ResetEffects(host, options, folder)),
                                     SvgFilesOf(host, options.entry, folder))
    requires afterFiles.thrown.None?
    ensures FolderStep(host, tpl, options, st, folder)
            == afterFiles.(effects := afterFiles.effects
                                      + [WriteFile(IndexFile(host, options, folder),
                                                   IndexText(ComponentNames(host.camel, SvgFilesOf(host, options.entry, folder))))],
                           indexFiles := afterFiles.indexFiles + [IndexFile(host, options, folder)])
  {
  }

  /** A state reached part-way through a fold that has thrown is the fold's result. */
  lemma ThrownFileStepsFinal(host: Host, tpl: Templates, options: Options, folder: string, st: State, svgFiles: seq<string>,
                             j: nat, mid: State)
    requires j < |svgFiles|
    requires mid == FileStep(host, tpl, options, folder, FileSteps(host, tpl, options, folder, st, svgFiles[..j]), svgFiles[j])
    requires mid.thrown.Some?
    ensures FileSteps(host, tpl, options, folder, st, svgFiles) == mid
  {
    var head, rest := svgFiles[..j + 1], svgFiles[j + 1..];
    FileStepsSnoc(host, tpl, options, folder, st, svgFiles, j);
    assert svgFiles == head + rest;
    FileStepsAppend(host, tpl, options, folder, st, head, rest);
    FileStepsThrown(host, tpl, options, folder, mid, rest);
  }

  lemma ThrownFolderStepsFinal(host: Host, tpl: Templates, options: Options, st: State, folders: seq<string>, i: nat, mid: State)
    requires i < |folders|
    requires mid == FolderStep(host, tpl, options, FolderSteps(host, tpl, options, st, folders[..i]), folders[i])
    requires mid.thrown.Some?
    ensures FolderSteps(host, tpl, options, st, folders) == mid
  {
    var head, rest := folders[..i + 1], folders[i + 1..];
    FolderStepsSnoc(host, tpl, options, st, folders, i);
    assert folders == head + rest;
    FolderStepsAppend(host, tpl, options, st, head, rest);
    FolderStepsThrown(host, tpl, options, mid, rest);
  }

  // ---------------------------------------------------------------------------
  // main

  /** The body of the inner loop: create the requested components of one `.svg`
      file, stopping at the first one that throws. */
  method CreateComponents(host: Host, options: Options, folder: string, st: State, svgFile: string)
    returns (next: State)
    requires st.thrown.None?
    ensures next == FileStep(host, SourceTemplates(host.camel), options, folder, st, svgFile)
  {
    ghost var tpl := SourceTemplates(host.camel);
    next := st;
    var outputPath := host.join([options.output, folder]);
    var svgFilePath := host.join([options.entry, folder, svgFile]);
    var svgFileNameWithoutExtension := StripSvgExtension(svgFile);
    var svgFileContent := host.readFile(svgFilePath);
    var componentName := host.camel(svgFileNameWithoutExtension, true);

    if "react" in options.generate {
      var file := host.resolve([outputPath, componentName, "index.tsx"]);
      var reactRes := ReactComponent(host.camel, svgFileContent, componentName);
      assert reactRes == tpl.react(svgFileContent, componentName);
      next := WriteComponent(next, reactRes, componentName, file);
      if next.thrown.Some? {
        return;
      }
    }

    if "vue" in options.generate {
      var file := host.resolve([outputPath, componentName, "index.vue"]);
      var vueRes := VueComponent(host.camel, svgFileContent, componentName);
      assert vueRes == tpl.vue(svgFileContent, componentName);
      next := WriteComponent(next, vueRes, componentName, file);
    }
  }

  /** Write one created component, or record the exception creating it threw. */
  method WriteComponent(st: State, created: Result<string>, componentName: string, file: string)
    returns (next: State)
    requires st.thrown.None?
    ensures next == Emit(st, created, componentName, file)
  {
    if created.Err? {
      return st.(thrown := Some(created.message));
    }
    next := st.(effects := st.effects + [WriteFile(file, created.value)],
                generated := st.generated + [Generated(componentName, file)]);
  }

  /** src/svg-to-react-component.ts:47-52: remove the output directory of a
      non-root folder if it exists, then create it. */
  method ResetOutputDir(host: Host, options: Options, st: State, folder: string) returns (next: State)
    ensures next == st.(effects := st.effects + ResetEffects(host, options, folder))
  {
    next := st;
    if folder != "." {
      var outDir := host.resolve([options.output, folder]);
      if host.pathExists(outDir) {
        next := next.(effects := next.effects + [RemoveDir(outDir)]);
      }
      next := next.(effects := next.effects + [MakeDir(outDir)]);
    }
  }

  /** The inner loop over the `.svg` files of a folder; it stops at the first
      component that throws.  The names are `componentNamesForIndex`. */
  method CreateFolderComponents(host: Host, options: Options, folder: string, st: State, svgFiles: seq<string>)
    returns (next: State, componentNamesForIndex: seq<string>)
    requires st.thrown.None?
    ensures next == FileSteps(host, SourceTemplates(host.camel), options, folder, st, svgFiles)
    ensures next.thrown.None? ==> componentNamesForIndex == ComponentNames(host.camel, svgFiles)
  {
    ghost var tpl := SourceTemplates(host.camel);
    next := st;
    componentNamesForIndex := [];
    var j := 0;
    while j < |svgFiles|
      invariant 0 <= j <= |svgFiles|
      invariant next == FileSteps(host, tpl, options, folder, st, svgFiles[..j]) && next.thrown.None?
      invariant componentNamesForIndex == ComponentNames(host.camel, svgFiles[..j])
    {
      var svgFile := svgFiles[j];
      FileStepsSnoc(host, tpl, options, folder, st, svgFiles, j);
      assert svgFiles[..j + 1][..j] == svgFiles[..j];
      componentNamesForIndex := componentNamesForIndex + [host.camel(StripSvgExtension(svgFile), true)];
      next := CreateComponents(host, options, folder, next, svgFile);
      if next.thrown.Some? {
        ThrownFileStepsFinal(host, tpl, options, folder, st, svgFiles, j, next);
        return;
      }
      j := j + 1;
    }
    assert svgFiles[..j] == svgFiles;
  }

  /** The body of the outer loop: skip a folder without `.svg` files, else reset
      its output directory, create its components, then write its index. */
  method TranspileFolder(host: Host, options: Options, st: State, folder: string) returns (next: State)
    requires st.thrown.None?
    ensures next == FolderStep(host, SourceTemplates(host.camel), options, st, folder)
  {
    ghost var tpl := SourceTemplates(host.camel);
    var allFilesInFolder := host.readDir(host.join([options.entry, folder]));
    var svgFiles := SvgFiles(allFilesInFolder);
    if svgFiles == [] {
      return st;
    }
    next := ResetOutputDir(host, options, st, folder);
    var componentNamesForIndex;
    next, componentNamesForIndex := CreateFolderComponents(host, options, folder, next, svgFiles);
    if next.thrown.Some? {
      return;
    }
    var indexFilePath, indexText := CreateIndexFile(host.join, componentNamesForIndex, host.resolve([options.output, folder]));
    FolderStepCompleted(host, tpl, options, st, folder, next);
    next := next.(effects := next.effects + [WriteFile(indexFilePath, indexText)],
                  indexFiles := next.indexFiles + [indexFilePath]);
  }

  /** The outer loop over `folders`; it stops at the first folder that throws. */
  method WalkFolders(host: Host, options: Options, st: State, folders: seq<string>) returns (next: State)
    requires st.thrown.None?
    ensures next == FolderSteps(host, SourceTemplates(host.camel), options, st, folders)
  {
    ghost var tpl := SourceTemplates(host.camel);
    next := st;
    var i := 0;
    while i < |folders|
      invariant 0 <= i <= |folders|
      invariant next == FolderSteps(host, tpl, options, st, folders[..i]) && next.thrown.None?
    {
      var folder := folders[i];
      FolderStepsSnoc(host, tpl, options, st, folders, i);
      next := TranspileFolder(host, options, next, folder);
      if next.thrown.Some? {
        ThrownFolderStepsFinal(host, tpl, options, st, folders, i, next);
        return;
      }
      i := i + 1;
    }
    assert folders[..i] == folders;
  }

  /** `main(options)`: create the output root if missing, list the folders,
      apply the collision guard, walk the folders, then compile the indexes. */
  method SvgToReactComponent(host: Host, options: Options) returns (report: Report)
    ensures report == Transpile(host, SourceTemplates(host.camel), options)
  {
    var effects: seq<Effect> := [];
    var outputDir := host.resolve([options.output]);
    if !host.pathExists(outputDir) {
      effects := effects + [MakeDir(outputDir)];
    }
    var allFilesAndFolders := host.readDir(options.entry);
    var folders := ["."] + Directories(host, options.entry, allFilesAndFolders);

    var collidingFolderNames := FirstResolvingTo(host, folders, host.resolve([options.entry]));
    if collidingFolderNames.Some? && collidingFolderNames.value != "" {
      var message := CollisionMessage(host, collidingFolderNames.value, options.entry);
      effects := effects + [ReportError(message)];
      return Report(Collided(message), effects);
    }

    assert folders == Folders(host, options.entry);
    assert CollidingFolder(host, folders, options.entry).None?;
    assert effects == Prelude(host, options);
    var st := WalkFolders(host, options, State(effects, [], [], None), folders);
    if st.thrown.Some? {
      return Report(Threw(st.thrown.value), st.effects);
    }
    report := Report(Completed(st.generated, st.indexFiles), st.effects + [CompileDeclarations(st.indexFiles)]);
  }
}
