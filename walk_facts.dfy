/** What a run of `main` does, stated over the whole walk: the collision guard
    stops it before any folder, a complete run writes one index per folder that
    holds `.svg` files, and only the output directories of those folders are
    removed and re-created. */
module WalkFacts {
  import opened Text
  import opened Components
  import opened Walk

  function IndexFiles(host: Host, options: Options, folders: seq<string>): (r: seq<string>)
    ensures |r| == |folders|
    ensures forall i :: 0 <= i < |folders| ==> r[i] == IndexFile(host, options, folders[i])
  {
    if folders == [] then []
    else IndexFiles(host, options, folders[..|folders| - 1]) + [IndexFile(host, options, folders[|folders| - 1])]
  }

  /** `b` begins with `a`. */
  predicate Extends(a: seq<Effect>, b: seq<Effect>)
  {
    |a| <= |b| && b[..|a|] == a
  }

  lemma ExtendsTransitive(a: seq<Effect>, b: seq<Effect>, c: seq<Effect>)
    requires Extends(a, b) && Extends(b, c)
    ensures Extends(a, c)
  {
    assert c[..|b|][..|a|] == c[..|a|];
  }

  lemma ExtendsMember(a: seq<Effect>, b: seq<Effect>, x: Effect)
    requires Extends(a, b) && x in a
    ensures x in b
  {
    var i :| 0 <= i < |a| && a[i] == x;
    assert b[..|a|][i] == b[i];
  }

  // ---------------------------------------------------------------------------
  // The collision guard

  /** The run stops at the guard exactly when a folder (the first that resolves
      to the entry) is reported colliding, and then it has only created the
      output root, if at all, and printed the error. */
  lemma CollisionStopsTheRun(host: Host, tpl: Templates, options: Options)
    ensures var folders := Folders(host, options.entry);
            Transpile(host, tpl, options).outcome.Collided? <==> CollidingFolder(host, folders, options.entry).Some?
    ensures var folders := Folders(host, options.entry);
            CollidingFolder(host, folders, options.entry).Some? ==>
              var message := CollisionMessage(host, CollidingFolder(host, folders, options.entry).value, options.entry);
              Transpile(host, tpl, options) == Report(Collided(message), Prelude(host, options) + [ReportError(message)])
    ensures Transpile(host, tpl, options).outcome.Collided? ==>
              forall e :: e in Transpile(host, tpl, options).effects ==>
                !e.WriteFile? && !e.RemoveDir? && !e.CompileDeclarations?
  {
  }

  lemma {:induction false} FindResolvingFirst(host: Host, folders: seq<string>, target: string, from: nat, i: nat)
    requires from <= i < |folders| && host.resolve([folders[i]]) == target
    requires forall j :: from <= j < i ==> host.resolve([folders[j]]) != target
    ensures FindResolving(host, folders, target, from) == Some(i)
    decreases i - from
  {
    if from < i {
      FindResolvingFirst(host, folders, target, from + 1, i);
    }
  }

  /** The guard fires when some folder resolves to the entry and the first such
      folder has a non-empty name. */
  lemma CollisionDetected(host: Host, tpl: Templates, options: Options, i: nat)
    requires var folders := Folders(host, options.entry);
             i < |folders| && host.resolve([folders[i]]) == host.resolve([options.entry])
             && (forall j :: 0 <= j < i ==> host.resolve([folders[j]]) != host.resolve([options.entry]))
             && folders[i] != ""
    ensures Transpile(host, tpl, options).outcome.Collided?
  {
    FindResolvingFirst(host, Folders(host, options.entry), host.resolve([options.entry]), 0, i);
  }

  // ---------------------------------------------------------------------------
  // What the folds keep

  lemma EmitKeeps(st: State, created: Result<string>, componentName: string, file: string)
    ensures var r := Emit(st, created, componentName, file);
            r.indexFiles == st.indexFiles && Extends(st.effects, r.effects)
            && forall e :: e in r.effects ==> e in st.effects || e.WriteFile?
  {
  }

  /** The two optional writes of one file, for any component texts. */
  lemma EmitTwiceKeeps(st: State, react: Result<string>, vue: Result<string>, doReact: bool, doVue: bool,
                       componentName: string, reactFile: string, vueFile: string)
    ensures var afterReact := if doReact then Emit(st, react, componentName, reactFile) else st;
            var r := if doVue then Emit(afterReact, vue, componentName, vueFile) else afterReact;
            r.indexFiles == st.indexFiles && Extends(st.effects, r.effects)
            && forall e :: e in r.effects ==> e in st.effects || e.WriteFile?
  {
    var afterReact := if doReact then Emit(st, react, componentName, reactFile) else st;
    EmitKeeps(st, react, componentName, reactFile);
    EmitKeeps(afterReact, vue, componentName, vueFile);
    var r := if doVue then Emit(afterReact, vue, componentName, vueFile) else afterReact;
    ExtendsTransitive(st.effects, afterReact.effects, r.effects);
  }

  lemma FileStepKeeps(host: Host, tpl: Templates, options: Options, folder: string, st: State, svgFile: string)
    ensures var r := FileStep(host, tpl, options, folder, st, svgFile);
            r.indexFiles == st.indexFiles && Extends(st.effects, r.effects)
            && forall e :: e in r.effects ==> e in st.effects || e.WriteFile?
  {
    var outputPath := host.join([options.output, folder]);
    var svgFileContent := host.readFile(host.join([options.entry, folder, svgFile]));
    var componentName := ComponentName(host.camel, svgFile);
    EmitTwiceKeeps(st, tpl.react(svgFileContent, componentName), tpl.vue(svgFileContent, componentName),
                   "react" in options.generate, "vue" in options.generate, componentName,
                   host.resolve([outputPath, componentName, "index.tsx"]),
                   host.resolve([outputPath, componentName, "index.vue"]));
  }

  lemma {:induction false} FileStepsKeep(host: Host, tpl: Templates, options: Options, folder: string, st: State, svgFiles: seq<string>)
    ensures var r := FileSteps(host, tpl, options, folder, st, svgFiles);
            r.indexFiles == st.indexFiles && Extends(st.effects, r.effects)
            && forall e :: e in r.effects ==> e in st.effects || e.WriteFile?
  {
    if svgFiles != [] {
      var mid := FileSteps(host, tpl, options, folder, st, svgFiles[..|svgFiles| - 1]);
      FileStepsKeep(host, tpl, options, folder, st, svgFiles[..|svgFiles| - 1]);
      FileStepKeeps(host, tpl, options, folder, mid, svgFiles[|svgFiles| - 1]);
      var r := FileSteps(host, tpl, options, folder, st, svgFiles);
      ExtendsTransitive(st.effects, mid.effects, r.effects);
    }
  }

  /** A folder is a non-root folder with `.svg` files whose output directory is `path`. */
  predicate ResetFolder(host: Host, options: Options, folders: seq<string>, path: string)
  {
    exists f :: f in folders && f != "." && SvgFilesOf(host, options.entry, f) != [] && path == OutputDir(host, options, f)
  }

  /** The effects a folder step may add: component and index writes, and the
      reset of its own output directory. */
  predicate FolderEffect(host: Host, options: Options, folders: seq<string>, e: Effect)
  {
    e.WriteFile?
    || (e.MakeDir? && ResetFolder(host, options, folders, e.path))
    || (e.RemoveDir? && ResetFolder(host, options, folders, e.path) && host.pathExists(e.path))
  }

  lemma FolderStepKeeps(host: Host, tpl: Templates, options: Options, st: State, folder: string)
    ensures var r := FolderStep(host, tpl, options, st, folder);
            Extends(st.effects, r.effects)
            && forall e :: e in r.effects ==> e in st.effects || FolderEffect(host, options, [folder], e)
  {
    var svgFiles := SvgFilesOf(host, options.entry, folder);
    if st.thrown.None? && svgFiles != [] {
      var reset := st.(effects := st.effects + ResetEffects(host, options, folder));
      FileStepsKeep(host, tpl, options, folder, reset, svgFiles);
      var afterFiles := FileSteps(host, tpl, options, folder, reset, svgFiles);
      ResetEffectsOfFolder(host, options, folder);
      var index := WriteFile(IndexFile(host, options, folder), IndexText(ComponentNames(host.camel, svgFiles)));
      var r := FolderStep(host, tpl, options, st, folder);
      assert r.effects == afterFiles.effects || r.effects == afterFiles.effects + [index];
      StepEffectsKeep(host, options, folder, st.effects, ResetEffects(host, options, folder),
                      afterFiles.effects, index, r.effects);
    }
  }

  /** The reset of a folder with `.svg` files is made of folder effects. */
  lemma ResetEffectsOfFolder(host: Host, options: Options, folder: string)
    requires SvgFilesOf(host, options.entry, folder) != []
    ensures forall e :: e in ResetEffects(host, options, folder) ==> FolderEffect(host, options, [folder], e)
  {
    assert folder in [folder];
  }

  /** Effects `before`, then a reset, then writes, then possibly one more write. */
  lemma StepEffectsKeep(host: Host, options: Options, folder: string, before: seq<Effect>, reset: seq<Effect>,
                        afterFiles: seq<Effect>, index: Effect, after: seq<Effect>)
    requires Extends(before + reset, afterFiles)
    requires forall e :: e in afterFiles ==> e in before + reset || e.WriteFile?
    requires forall e :: e in reset ==> FolderEffect(host, options, [folder], e)
    requires index.WriteFile?
    requires after == afterFiles || after == afterFiles + [index]
    ensures Extends(before, after)
    ensures forall e :: e in after ==> e in before || FolderEffect(host, options, [folder], e)
  {
    assert Extends(before, before + reset);
    ExtendsTransitive(before, before + reset, afterFiles);
    assert Extends(afterFiles, after);
    ExtendsTransitive(before, afterFiles, after);
  }

  lemma FolderEffectWiden(host: Host, options: Options, a: seq<string>, b: seq<string>, e: Effect)
    requires FolderEffect(host, options, a, e)
    requires forall f :: f in a ==> f in b
    ensures FolderEffect(host, options, b, e)
  {
  }

  lemma {:induction false} FolderStepsKeep(host: Host, tpl: Templates, options: Options, st: State, folders: seq<string>)
    ensures var r := FolderSteps(host, tpl, options, st, folders);
            Extends(st.effects, r.effects)
            && forall e :: e in r.effects ==> e in st.effects || FolderEffect(host, options, folders, e)
  {
    if folders != [] {
      var init := folders[..|folders| - 1];
      var last := folders[|folders| - 1];
      assert folders == init + [last];
      FolderStepsKeep(host, tpl, options, st, init);
      var mid := FolderSteps(host, tpl, options, st, init);
      FolderStepKeeps(host, tpl, options, mid, last);
      var r := FolderSteps(host, tpl, options, st, folders);
      ExtendsTransitive(st.effects, mid.effects, r.effects);
      forall e | e in r.effects && e !in st.effects
        ensures FolderEffect(host, options, folders, e)
      {
        if e in mid.effects {
          FolderEffectWiden(host, options, init, folders, e);
        } else {
          FolderEffectWiden(host, options, [last], folders, e);
        }
      }
    }
  }

  // ---------------------------------------------------------------------------
  // The index files

  /** One folder step that does not throw adds the folder's index when it
      holds `.svg` files, and nothing to the index list otherwise. */
  lemma FolderStepIndex(host: Host, tpl: Templates, options: Options, st: State, folder: string)
    requires FolderStep(host, tpl, options, st, folder).thrown.None?
    ensures st.thrown.None?
    ensures var r := FolderStep(host, tpl, options, st, folder);
            r.indexFiles == st.indexFiles
                            + (if SvgFilesOf(host, options.entry, folder) != [] then [IndexFile(host, options, folder)] else [])
    ensures SvgFilesOf(host, options.entry, folder) != [] ==>
              WriteFile(IndexFile(host, options, folder),
                        IndexText(ComponentNames(host.camel, SvgFilesOf(host, options.entry, folder))))
                in FolderStep(host, tpl, options, st, folder).effects
  {
    var svgFiles := SvgFilesOf(host, options.entry, folder);
    if svgFiles != [] {
      var reset := st.(effects := st.effects + ResetEffects(host, options, folder));
      FileStepsKeep(host, tpl, options, folder, reset, svgFiles);
    }
  }

  /** A run through the folders that does not throw writes, in folder order,
      one index per folder with `.svg` files; each holds the export lines of
      that folder's components in file order. */
  lemma FolderStepsIndexes(host: Host, tpl: Templates, options: Options, st: State, folders: seq<string>)
    requires FolderSteps(host, tpl, options, st, folders).thrown.None?
    ensures var r := FolderSteps(host, tpl, options, st, folders);
            r.indexFiles == st.indexFiles + IndexFiles(host, options, NonEmptyFolders(host, options.entry, folders))
    ensures forall f :: f in NonEmptyFolders(host, options.entry, folders) ==>
              WriteFile(IndexFile(host, options, f),
                        IndexText(ComponentNames(host.camel, SvgFilesOf(host, options.entry, f))))
                in FolderSteps(host, tpl, options, st, folders).effects
  {
    FolderStepsIndexList(host, tpl, options, st, folders);
    FolderStepsIndexWrites(host, tpl, options, st, folders);
  }

  lemma {:induction false} FolderStepsIndexList(host: Host, tpl: Templates, options: Options, st: State, folders: seq<string>)
    requires FolderSteps(host, tpl, options, st, folders).thrown.None?
    ensures var r := FolderSteps(host, tpl, options, st, folders);
            r.indexFiles == st.indexFiles + IndexFiles(host, options, NonEmptyFolders(host, options.entry, folders))
  {
    if folders != [] {
      var init := folders[..|folders| - 1];
      var last := folders[|folders| - 1];
      var mid := FolderSteps(host, tpl, options, st, init);
      assert FolderSteps(host, tpl, options, st, folders) == FolderStep(host, tpl, options, mid, last);
      FolderStepIndex(host, tpl, options, mid, last);
      FolderStepsIndexList(host, tpl, options, st, init);
      var ne := NonEmptyFolders(host, options.entry, init);
      if SvgFilesOf(host, options.entry, last) != [] {
        assert NonEmptyFolders(host, options.entry, folders) == ne + [last];
        assert (ne + [last])[..|ne + [last]| - 1] == ne;
      }
    }
  }

  lemma {:induction false} FolderStepsIndexWrites(host: Host, tpl: Templates, options: Options, st: State, folders: seq<string>)
    requires FolderSteps(host, tpl, options, st, folders).thrown.None?
    ensures forall f :: f in NonEmptyFolders(host, options.entry, folders) ==>
              WriteFile(IndexFile(host, options, f),
                        IndexText(ComponentNames(host.camel, SvgFilesOf(host, options.entry, f))))
                in FolderSteps(host, tpl, options, st, folders).effects
  {
    if folders != [] {
      var init := folders[..|folders| - 1];
      var last := folders[|folders| - 1];
      var mid := FolderSteps(host, tpl, options, st, init);
      var r := FolderSteps(host, tpl, options, st, folders);
      assert r == FolderStep(host, tpl, options, mid, last);
      FolderStepIndex(host, tpl, options, mid, last);
      FolderStepsIndexWrites(host, tpl, options, st, init);
      FolderStepKeeps(host, tpl, options, mid, last);
      var ne := NonEmptyFolders(host, options.entry, init);
      forall f | f in NonEmptyFolders(host, options.entry, folders)
        ensures WriteFile(IndexFile(host, options, f), IndexText(ComponentNames(host.camel, SvgFilesOf(host, options.entry, f))))
                  in r.effects
      {
        if f in ne {
          ExtendsMember(mid.effects, r.effects,
                        WriteFile(IndexFile(host, options, f), IndexText(ComponentNames(host.camel, SvgFilesOf(host, options.entry, f)))));
        }
      }
    }
  }

  /** A complete run reports one index file per folder that holds `.svg` files,
      the entry first, and has written each with its export lines. */
  lemma CompletedRunIndexes(host: Host, tpl: Templates, options: Options)
    requires Transpile(host, tpl, options).outcome.Completed?
    ensures var folders := Folders(host, options.entry);
            Transpile(host, tpl, options).outcome.indexFiles == IndexFiles(host, options, NonEmptyFolders(host, options.entry, folders))
    ensures var folders := Folders(host, options.entry);
            forall f :: f in NonEmptyFolders(host, options.entry, folders) ==>
              WriteFile(IndexFile(host, options, f),
                        IndexText(ComponentNames(host.camel, SvgFilesOf(host, options.entry, f))))
                in Transpile(host, tpl, options).effects
    ensures var effects := Transpile(host, tpl, options).effects;
            |effects| >= 1 && effects[|effects| - 1] == CompileDeclarations(Transpile(host, tpl, options).outcome.indexFiles)
  {
    var folders := Folders(host, options.entry);
    var start := State(Prelude(host, options), [], [], None);
    FolderStepsIndexes(host, tpl, options, start, folders);
    var st := FolderSteps(host, tpl, options, start, folders);
    forall f | f in NonEmptyFolders(host, options.entry, folders)
      ensures WriteFile(IndexFile(host, options, f), IndexText(ComponentNames(host.camel, SvgFilesOf(host, options.entry, f))))
                in Transpile(host, tpl, options).effects
    {
      assert Transpile(host, tpl, options).effects == st.effects + [CompileDeclarations(st.indexFiles)];
    }
  }

  // ---------------------------------------------------------------------------
  // The output directories

  /** Every directory a run removes is the output directory of a non-root
      folder with `.svg` files, and it existed; every directory it creates is
      that or the missing output root.  So the output root is never removed
      unless a subfolder resolves to it. */
  lemma OnlySubfoldersAreReset(host: Host, tpl: Templates, options: Options)
    ensures forall e :: e in Transpile(host, tpl, options).effects && e.RemoveDir? ==>
              host.pathExists(e.path) && ResetFolder(host, options, Folders(host, options.entry), e.path)
    ensures forall e :: e in Transpile(host, tpl, options).effects && e.MakeDir? ==>
              (e.path == host.resolve([options.output]) && !host.pathExists(e.path))
              || ResetFolder(host, options, Folders(host, options.entry), e.path)
  {
    var folders := Folders(host, options.entry);
    var start := State(Prelude(host, options), [], [], None);
    FolderStepsKeep(host, tpl, options, start, folders);
    TranspileEffectsFrom(host, tpl, options);
    ClassifiedDirEffects(host, options, folders, Transpile(host, tpl, options).effects,
                         FolderSteps(host, tpl, options, start, folders).effects);
  }

  /** The directory effects of a run whose effects come from the prelude, the
      folder effects, the error report and the declaration compile. */
  lemma ClassifiedDirEffects(host: Host, options: Options, folders: seq<string>, all: seq<Effect>, walked: seq<Effect>)
    requires forall e :: e in all ==>
               e in Prelude(host, options) || e in walked || e.ReportError? || e.CompileDeclarations?
    requires forall e :: e in walked ==> e in Prelude(host, options) || FolderEffect(host, options, folders, e)
    ensures forall e :: e in all && e.RemoveDir? ==>
              host.pathExists(e.path) && ResetFolder(host, options, folders, e.path)
    ensures forall e :: e in all && e.MakeDir? ==>
              (e.path == host.resolve([options.output]) && !host.pathExists(e.path))
              || ResetFolder(host, options, folders, e.path)
  {
  }

  /** Every effect of a run comes from the prelude or the walk, or is the
      error report or the declaration compile. */
  lemma TranspileEffectsFrom(host: Host, tpl: Templates, options: Options)
    ensures var st := FolderSteps(host, tpl, options, State(Prelude(host, options), [], [], None), Folders(host, options.entry));
            forall e :: e in Transpile(host, tpl, options).effects ==>
              e in Prelude(host, options) || e in st.effects || e.ReportError? || e.CompileDeclarations?
  {
  }

  /** With a `resolve` that keeps subfolders apart from the output root, the
      root is never removed. */
  lemma OutputRootNeverRemoved(host: Host, tpl: Templates, options: Options)
    requires forall f :: f in Folders(host, options.entry) && f != "." ==>
               OutputDir(host, options, f) != host.resolve([options.output])
    ensures RemoveDir(host.resolve([options.output])) !in Transpile(host, tpl, options).effects
  {
    OnlySubfoldersAreReset(host, tpl, options);
  }
}
