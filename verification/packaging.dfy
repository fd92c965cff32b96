/** Packaging a component and the whole project (cli/src/core/utils.go,
    packageComponent; cli/src/core/deployer.go, PackageFuncs and its packageComponent).

    The two source files declare diverging copies of the same helpers; `Variant`
    chooses which copy a run follows. */
module Packaging {
  import opened Wrappers
  import opened Strings
  import opened Paths
  import opened FileSystem
  import opened Process
  import opened SkipList
  import opened ProjectRoot
  import opened SourceCopy
  import opened ZipArchive
  import opened Installer

  /** `UtilsGo` keeps the scratch directory after packaging; `DeployerGo` removes it on
      every return after creating it and uses the deployer installers. */
  datatype Variant = UtilsGo | DeployerGo

  datatype Packaged = Packaged(fs: FS, progress: seq<string>, cmds: seq<Cmd>, outcome: Result<()>)

  /** The installer of the chosen variant. Success needs a supported language and
      every launched command to succeed; utils.go then ran its whole plan with only its
      header, deployer.go ran its whole plan or skipped a missing manifest. */
  function Install(variant: Variant, fs: FS, lang: string, comp: Path, build: Path, run: Launcher): (e: Effects)
    ensures e.outcome.Ok? ==>
              Supported(lang) && 1 <= |e.progress| <= 2 && e.progress[0] == Header(lang) && AllSucceed(run, e.cmds)
    ensures e.outcome.Ok? && variant == UtilsGo ==> e.progress == [Header(lang)] && e.cmds == Plan(lang, comp, build)
    ensures e.outcome.Ok? && variant == DeployerGo ==> e.cmds == DeployerPlan(lang, comp, build) || e.cmds == []
    ensures !Supported(lang) ==> e == Effects([], [], Err("unsupported language: " + lang))
    ensures e.outcome.Err? && Supported(lang) && (variant == DeployerGo || !NotExist(fs, comp + [Manifest(lang)])) ==>
              |e.cmds| > 0 && run(e.cmds[|e.cmds| - 1]).Failed?
  {
    if variant == UtilsGo then InstallDependencies(fs, lang, comp, build, run)
    else DeployerInstallDependencies(fs, lang, comp, build, run)
  }

  /** `<root>/<name>/<name>_lambda.zip`. */
  function ArchivePath(root: Path, name: string): Path {
    root + [name] + [name + ArchiveSuffix]
  }

  function OpeningMsg(name: string): string {
    "Packaging " + name + "..."
  }

  function SuccessMsg(root: Path, name: string): string {
    name + " packaged successfully: " + Render(ArchivePath(root, name))
  }

  /** The archive is written beside the scratch directory, never inside it. */
  lemma ArchiveOutsideScratch(root: Path, name: string)
    ensures !Under(ArchivePath(root, name), Scratch(root + [name]))
  {
    var comp := root + [name];
    assert ArchivePath(root, name)[|comp|] == name + ArchiveSuffix;
    assert Scratch(comp)[|comp|] == ScratchName;
    assert |name + ArchiveSuffix| != |ScratchName|;
  }

  /** Installing and archiving, once the sources are in the scratch directory. */
  function Finish(variant: Variant, copied: FS, name: string, lang: string, root: Path, run: Launcher): (p: Packaged)
    ensures |p.progress| > 0 && p.progress[0] == OpeningMsg(name)
    ensures p.outcome.Ok? ==>
              Supported(lang) && 3 <= |p.progress| <= 4 && p.progress[1] == Header(lang)
              && p.progress[|p.progress| - 1] == SuccessMsg(root, name) && AllSucceed(run, p.cmds)
    ensures p.outcome.Ok? && variant == UtilsGo ==>
              p.progress == [OpeningMsg(name), Header(lang), SuccessMsg(root, name)]
              && p.cmds == Plan(lang, root + [name], Scratch(root + [name]))
    ensures p.outcome.Ok? && variant == DeployerGo ==>
              p.cmds == DeployerPlan(lang, root + [name], Scratch(root + [name])) || p.cmds == []
    ensures p.outcome.Ok? ==> ArchivePath(root, name) in p.fs && p.fs[ArchivePath(root, name)].Archive?
    ensures var inst := Install(variant, copied, lang, root + [name], Scratch(root + [name]), run);
            && p.cmds == inst.cmds
            && (inst.outcome.Err? ==>
                  p == Packaged(copied, [OpeningMsg(name)] + inst.progress, inst.cmds,
                                Err("failed to install dependencies: " + inst.outcome.msg)))
            && (inst.outcome.Ok? ==>
                  var zipped := ZipDirectory(copied, Scratch(root + [name]), ArchivePath(root, name));
                  && (p.outcome.Ok? <==> zipped.Ok?)
                  && (zipped.Err? ==> p.outcome == Err("failed to create zip file: " + zipped.msg))
                  && (zipped.Ok? ==> p.fs == zipped.value))
  {
    var comp := root + [name];
    var build := Scratch(comp);
    var inst := Install(variant, copied, lang, comp, build, run);
    if inst.outcome.Err? then
      Packaged(copied, [OpeningMsg(name)] + inst.progress, inst.cmds,
               Err("failed to install dependencies: " + inst.outcome.msg))
    else
      match ZipDirectory(copied, build, ArchivePath(root, name))
      case Err(e) =>
        Packaged(copied, [OpeningMsg(name)] + inst.progress, inst.cmds, Err("failed to create zip file: " + e))
      case Ok(zipped) =>
        Packaged(zipped, [OpeningMsg(name)] + inst.progress + [SuccessMsg(root, name)], inst.cmds, Ok(()))
  }

  /** The steps after the scratch directory exists: copy, install, archive. */
  function Build(variant: Variant, fs: FS, name: string, lang: string, root: Path, run: Launcher): (p: Packaged)
    requires IsDir(fs, Scratch(root + [name]))
    ensures |p.progress| > 0 && p.progress[0] == OpeningMsg(name)
    ensures p.outcome.Ok? ==> CopySource(fs, root + [name]).Ok?
    ensures CopySource(fs, root + [name]).Ok? ==>
              p == Finish(variant, CopySource(fs, root + [name]).value, name, lang, root, run)
    ensures CopySource(fs, root + [name]).Err? ==>
              p == Packaged(fs, [OpeningMsg(name)], [], Err("failed to copy source code: " + CopySource(fs, root + [name]).msg))
  {
    match CopySource(fs, root + [name])
    case Err(e) => Packaged(fs, [OpeningMsg(name)], [], Err("failed to copy source code: " + e))
    case Ok(copied) => Finish(variant, copied, name, lang, root, run)
  }

  /** packageComponent(name): the opening message always comes first. A component
      directory that does not exist fails after that one message, with nothing launched
      or written. A successful run reports the opening message, the installer's
      messages and the archive path last, and leaves an archive at that path; under
      deployer.go nothing is left below the scratch directory. Everything launched
      comes from the installer. */
  function PackageComponent(variant: Variant, fs: FS, name: string, lang: string, root: Path, run: Launcher): (p: Packaged)
    ensures |p.progress| > 0 && p.progress[0] == OpeningMsg(name)
    ensures NotExist(fs, root + [name]) ==>
              p == Packaged(fs, [OpeningMsg(name)], [], Err(name + " directory not found"))
    ensures p.outcome.Ok? ==>
              Supported(lang) && 3 <= |p.progress| <= 4 && p.progress[1] == Header(lang)
              && p.progress[|p.progress| - 1] == SuccessMsg(root, name) && AllSucceed(run, p.cmds)
    ensures p.outcome.Ok? && variant == UtilsGo ==>
              p.progress == [OpeningMsg(name), Header(lang), SuccessMsg(root, name)]
              && p.cmds == Plan(lang, root + [name], Scratch(root + [name]))
    ensures p.outcome.Ok? && variant == DeployerGo ==>
              p.cmds == DeployerPlan(lang, root + [name], Scratch(root + [name])) || p.cmds == []
    ensures p.outcome.Ok? ==> ArchivePath(root, name) in p.fs && p.fs[ArchivePath(root, name)].Archive?
    ensures variant == DeployerGo && !NotExist(fs, root + [name]) && MkdirAll(fs, Scratch(root + [name])).Ok? ==>
              forall q | q in p.fs :: !Under(q, Scratch(root + [name]))
  {
    var comp := root + [name];
    var build := Scratch(comp);
    if NotExist(fs, comp) then Packaged(fs, [OpeningMsg(name)], [], Err(name + " directory not found"))
    else
      match MkdirAll(fs, build)
      case Err(e) => Packaged(fs, [OpeningMsg(name)], [], Err("failed to create build directory: " + e))
      case Ok(made) =>
        assert build[..|build|] == build;
        var p := Build(variant, made, name, lang, root, run);
        ArchiveOutsideScratch(root, name);
        if variant == DeployerGo then p.(fs := RemoveAll(p.fs, build)) else p
  }

  /** How an existing component's packaging ends, stage by stage: a failure to create
      the scratch directory or to copy is wrapped and reported after the opening
      message alone, with nothing launched; after a successful copy the messages,
      commands and outcome are those of installing and archiving the copied tree, so
      the packaging succeeds exactly when the installer and the archive do. */
  lemma ComponentOutcome(variant: Variant, fs: FS, name: string, lang: string, root: Path, run: Launcher)
    requires !NotExist(fs, root + [name])
    ensures var p := PackageComponent(variant, fs, name, lang, root, run);
            var made := MkdirAll(fs, Scratch(root + [name]));
            && (made.Err? ==>
                  p == Packaged(fs, [OpeningMsg(name)], [], Err("failed to create build directory: " + made.msg)))
            && (made.Ok? && CopySource(made.value, root + [name]).Err? ==>
                  p.progress == [OpeningMsg(name)] && p.cmds == []
                  && p.outcome == Err("failed to copy source code: " + CopySource(made.value, root + [name]).msg))
            && (made.Ok? && CopySource(made.value, root + [name]).Ok? ==>
                  var f := Finish(variant, CopySource(made.value, root + [name]).value, name, lang, root, run);
                  p.progress == f.progress && p.cmds == f.cmds && p.outcome == f.outcome)
  {
    var build := Scratch(root + [name]);
    assert build[..|build|] == build;
  }

  /** An unsupported language fails every packaging with only the opening message and
      nothing launched, whatever stage it stops at. */
  lemma UnsupportedLanguageFails(variant: Variant, fs: FS, name: string, lang: string, root: Path, run: Launcher)
    requires !Supported(lang)
    ensures PackageComponent(variant, fs, name, lang, root, run).outcome.Err?
    ensures PackageComponent(variant, fs, name, lang, root, run).progress == [OpeningMsg(name)]
    ensures PackageComponent(variant, fs, name, lang, root, run).cmds == []
  {
    if !NotExist(fs, root + [name]) {
      ComponentOutcome(variant, fs, name, lang, root, run);
    }
  }

  /** Creating the scratch directory changes no filter decision about existing
      entries of a well-formed tree. */
  lemma KeptAfterMkdir(fs: FS, made: FS, comp: Path, q: Path)
    requires Tree(fs) && q in fs && Kept(fs, comp, q)
    requires forall x | x in fs :: x in made && made[x] == fs[x]
    ensures Kept(made, comp, q)
  {
    KeptIffNoSkippedAncestor(fs, comp, q);
    KeptIffNoSkippedAncestor(made, comp, q);
    forall k | |comp| <= k <= |q|
      ensures SkipEntry(made, q[..k]) == SkipEntry(fs, q[..k])
    {
      if k < |q| {
        assert IsDir(fs, q[..k]);
      } else {
        assert q[..k] == q;
      }
    }
  }

  /** Where a successful packaging leaves the copy of `comp + rel`: in the filesystem
      the archive was written from, at `build + rel`. */
  lemma CopyReachesScratch(fs: FS, comp: Path, made: FS, rel: Path)
    requires Tree(fs) && |rel| > 0 && comp + rel in fs && Kept(fs, comp, comp + rel)
    requires forall x | x in fs :: x in made && made[x] == fs[x]
    requires IsDir(made, Scratch(comp)) && CopySource(made, comp).Ok?
    ensures Scratch(comp) + rel in CopySource(made, comp).value
    ensures CopySource(made, comp).value[Scratch(comp) + rel] == fs[comp + rel]
  {
    var q := comp + rel;
    KeptAfterMkdir(fs, made, comp, q);
    assert Under(q, comp) by { assert q[..|comp|] == comp; }
    assert Target(comp, q) == Scratch(comp) + rel by { assert q[|comp|..] == rel; }
  }

  /** A successful packaging went through every stage: the scratch directory was
      created, the copy and the archive succeeded, and the archive left at the
      archive path is the one written from the copied tree. */
  lemma PackagedStages(variant: Variant, fs: FS, name: string, lang: string, root: Path, run: Launcher)
    requires PackageComponent(variant, fs, name, lang, root, run).outcome.Ok?
    ensures MkdirAll(fs, Scratch(root + [name])).Ok?
    ensures IsDir(MkdirAll(fs, Scratch(root + [name])).value, Scratch(root + [name]))
    ensures CopySource(MkdirAll(fs, Scratch(root + [name])).value, root + [name]).Ok?
    ensures ZipDirectory(CopySource(MkdirAll(fs, Scratch(root + [name])).value, root + [name]).value,
                         Scratch(root + [name]), ArchivePath(root, name)).Ok?
    ensures PackageComponent(variant, fs, name, lang, root, run).fs
            == var zipped := ZipDirectory(CopySource(MkdirAll(fs, Scratch(root + [name])).value, root + [name]).value,
                                          Scratch(root + [name]), ArchivePath(root, name)).value;
               if variant == UtilsGo then zipped else RemoveAll(zipped, Scratch(root + [name]))
    ensures ArchivePath(root, name) in PackageComponent(variant, fs, name, lang, root, run).fs
    ensures PackageComponent(variant, fs, name, lang, root, run).fs[ArchivePath(root, name)]
            == ZipDirectory(CopySource(MkdirAll(fs, Scratch(root + [name])).value, root + [name]).value,
                            Scratch(root + [name]), ArchivePath(root, name)).value[ArchivePath(root, name)]
  {
    var build := Scratch(root + [name]);
    assert build[..|build|] == build;
    ArchiveOutsideScratch(root, name);
  }

  /** End to end: after a successful packaging, every file of a well-formed component
      tree that the copy keeps is in the archive, under its path relative to the
      component and with its content. */
  lemma ArchiveHoldsKeptFiles(variant: Variant, fs: FS, name: string, lang: string, root: Path, run: Launcher, rel: Path)
    requires Tree(fs) && |rel| > 0
    requires root + [name] + rel in fs && !fs[root + [name] + rel].Dir? && Kept(fs, root + [name], root + [name] + rel)
    requires PackageComponent(variant, fs, name, lang, root, run).outcome.Ok?
    ensures Entry(JoinSlash(rel), fs[root + [name] + rel])
            in PackageComponent(variant, fs, name, lang, root, run).fs[ArchivePath(root, name)].entries
  {
    var comp := root + [name];
    var build := Scratch(comp);
    PackagedStages(variant, fs, name, lang, root, run);
    var made := MkdirAll(fs, build).value;
    CopyReachesScratch(fs, comp, made, rel);
    ArchiveOutsideScratch(root, name);
    assert Under(build + rel, build) by { assert (build + rel)[..|build|] == build; }
    ArchiveHoldsFile(CopySource(made, comp).value, build, ArchivePath(root, name), rel);
  }

  /** A file lying in the scratch directory before the copy, with no source entry to
      overwrite it, is still there with its content once the copy succeeds. */
  lemma ScratchFileSurvivesCopy(fs: FS, comp: Path, rel: Path)
    requires |rel| > 0 && rel[0] != ScratchName
    requires Scratch(comp) + rel in fs && comp + rel !in fs
    requires MkdirAll(fs, Scratch(comp)).Ok? && IsDir(MkdirAll(fs, Scratch(comp)).value, Scratch(comp))
    requires CopySource(MkdirAll(fs, Scratch(comp)).value, comp).Ok?
    ensures Scratch(comp) + rel in CopySource(MkdirAll(fs, Scratch(comp)).value, comp).value
    ensures CopySource(MkdirAll(fs, Scratch(comp)).value, comp).value[Scratch(comp) + rel]
            == fs[Scratch(comp) + rel]
  {
    var build := Scratch(comp);
    var s := build + rel;
    var made := MkdirAll(fs, build).value;
    assert !Under(build, comp + rel) by {
      assert build[|comp|] == ScratchName;
      assert (comp + rel)[|comp|] == rel[0];
    }
    assert Under(s, build) by { assert s[..|build|] == build; }
    assert Origin(comp, s) == comp + rel by { assert s[|comp| + 1..] == rel; }
  }

  /** The scratch directory is not emptied before the copy: a file already lying in it
      that no source entry overwrites is shipped in the archive too, under either
      variant. */
  lemma StaleScratchFileShipped(variant: Variant, fs: FS, name: string, lang: string, root: Path, run: Launcher, rel: Path)
    requires |rel| > 0 && rel[0] != ScratchName
    requires Scratch(root + [name]) + rel in fs && !fs[Scratch(root + [name]) + rel].Dir?
    requires root + [name] + rel !in fs
    requires PackageComponent(variant, fs, name, lang, root, run).outcome.Ok?
    ensures Entry(JoinSlash(rel), fs[Scratch(root + [name]) + rel])
            in PackageComponent(variant, fs, name, lang, root, run).fs[ArchivePath(root, name)].entries
  {
    var comp := root + [name];
    var build := Scratch(comp);
    PackagedStages(variant, fs, name, lang, root, run);
    ScratchFileSurvivesCopy(fs, comp, rel);
    ArchiveOutsideScratch(root, name);
    ArchiveHoldsFile(CopySource(MkdirAll(fs, build).value, comp).value, build, ArchivePath(root, name), rel);
  }

  /** The stages of a packaging run, creating the scratch directory, copying and
      archiving into `zip`, leave alone every entry outside the component. */
  lemma StagesStayInComponent(fs: FS, comp: Path, zip: Path, q: Path)
    requires q in fs && !Under(q, comp) && Under(zip, comp)
    requires MkdirAll(fs, Scratch(comp)).Ok? && IsDir(MkdirAll(fs, Scratch(comp)).value, Scratch(comp))
    requires CopySource(MkdirAll(fs, Scratch(comp)).value, comp).Ok?
    requires ZipDirectory(CopySource(MkdirAll(fs, Scratch(comp)).value, comp).value, Scratch(comp), zip).Ok?
    ensures !Under(q, Scratch(comp))
    ensures q in ZipDirectory(CopySource(MkdirAll(fs, Scratch(comp)).value, comp).value, Scratch(comp), zip).value
    ensures ZipDirectory(CopySource(MkdirAll(fs, Scratch(comp)).value, comp).value, Scratch(comp), zip).value[q]
            == fs[q]
  {
    var build := Scratch(comp);
    var made := MkdirAll(fs, build).value;
    assert q in made && made[q] == fs[q];
    assert Under(build, comp) by { assert build[..|comp|] == comp; }
    assert !Under(q, build) by {
      if Under(q, build) { UnderTransitive(q, build, comp); }
    }
    CopyKeepsOutsideScratch(made, comp, q);
  }

  /** The copy leaves every entry outside the scratch directory as it was. */
  lemma CopyKeepsOutsideScratch(made: FS, comp: Path, q: Path)
    requires IsDir(made, Scratch(comp)) && CopySource(made, comp).Ok?
    requires q in made && !Under(q, Scratch(comp))
    ensures q in CopySource(made, comp).value && CopySource(made, comp).value[q] == made[q]
  {
  }

  /** Packaging a component touches nothing outside its directory: every other entry
      is still there, unchanged, after a successful run. */
  lemma PackagingStaysInComponent(variant: Variant, fs: FS, name: string, lang: string, root: Path, run: Launcher, q: Path)
    requires q in fs && !Under(q, root + [name])
    requires PackageComponent(variant, fs, name, lang, root, run).outcome.Ok?
    ensures q in PackageComponent(variant, fs, name, lang, root, run).fs
    ensures PackageComponent(variant, fs, name, lang, root, run).fs[q] == fs[q]
  {
    var comp := root + [name];
    PackagedStages(variant, fs, name, lang, root, run);
    assert ArchivePath(root, name)[..|comp|] == comp;
    StagesStayInComponent(fs, comp, ArchivePath(root, name), q);
  }

  const StartMsg := "Packaging serverless functions for deployment..."

  const CompleteMsg := "Packaging complete."

  /** What PackageFuncs leaves behind: the filesystem, the progress channel's events,
      the commands launched and the returned error. */
  datatype Report = Report(fs: FS, events: seq<Event>, cmds: seq<Cmd>, outcome: Result<()>)

  /** PackageFuncs: loads the project configuration found from `cwd`, then packages the
      workflow and, only if that succeeded, the executor, and closes the progress
      channel exactly once on every return. A configuration error is returned with
      nothing sent and nothing launched. A workflow failure stops the run before the
      executor is touched. A successful run opens with the start message, packages the
      workflow first and ends with the completion message. */
  function PackageFuncs(variant: Variant, fs: FS, cwd: Path, decode: Node -> Result<ProjectConfig>, run: Launcher): (r: Report)
    ensures ClosedOnce(r.events) && Drain(r.events).Some?
    ensures LoadConfig(fs, cwd, decode).Err? ==>
              Drain(r.events) == Some([]) && r.cmds == [] && r.fs == fs
              && r.outcome == Err(LoadConfig(fs, cwd, decode).msg)
    ensures LoadConfig(fs, cwd, decode).Ok? ==>
              var w := PackageComponent(variant, fs, "workflow", LoadConfig(fs, cwd, decode).value.0.language,
                                        LoadConfig(fs, cwd, decode).value.1, run);
              w.outcome.Err? ==>
                Drain(r.events) == Some([StartMsg] + w.progress) && r.cmds == w.cmds
                && r.outcome == Err("error packaging workflow: " + w.outcome.msg)
    ensures LoadConfig(fs, cwd, decode).Ok? ==>
              var lang, root := LoadConfig(fs, cwd, decode).value.0.language, LoadConfig(fs, cwd, decode).value.1;
              var w := PackageComponent(variant, fs, "workflow", lang, root, run);
              var x := PackageComponent(variant, w.fs, "executor", lang, root, run);
              w.outcome.Ok? ==>
                && r.cmds == w.cmds + x.cmds && r.fs == x.fs
                && (x.outcome.Err? ==>
                      Drain(r.events) == Some([StartMsg] + w.progress + x.progress)
                      && r.outcome == Err("error packaging executor: " + x.outcome.msg))
                && (x.outcome.Ok? ==>
                      Drain(r.events) == Some([StartMsg] + w.progress + x.progress + [CompleteMsg])
                      && r.outcome.Ok?)
    ensures r.outcome.Ok? ==>
              LoadConfig(fs, cwd, decode).Ok? && AllSucceed(run, r.cmds)
              && var msgs := Drain(r.events).value;
                 8 <= |msgs| <= 10 && msgs[0] == StartMsg && msgs[1] == OpeningMsg("workflow")
                 && msgs[|msgs| - 1] == CompleteMsg
  {
    match LoadConfig(fs, cwd, decode)
    case Err(e) =>
      StreamDrains([]);
      Report(fs, Stream([]), [], Err(e))
    case Ok(loaded) =>
      var lang := loaded.0.language;
      var root := loaded.1;
      var w := PackageComponent(variant, fs, "workflow", lang, root, run);
      if w.outcome.Err? then
        var msgs := [StartMsg] + w.progress;
        StreamDrains(msgs);
        Report(w.fs, Stream(msgs), w.cmds, Err("error packaging workflow: " + w.outcome.msg))
      else
        var x := PackageComponent(variant, w.fs, "executor", lang, root, run);
        if x.outcome.Err? then
          var msgs := [StartMsg] + w.progress + x.progress;
          StreamDrains(msgs);
          Report(x.fs, Stream(msgs), w.cmds + x.cmds, Err("error packaging executor: " + x.outcome.msg))
        else
          var msgs := [StartMsg] + w.progress + x.progress + [CompleteMsg];
          StreamDrains(msgs);
          assert AllSucceed(run, w.cmds + x.cmds) by {
            forall i | 0 <= i < |w.cmds + x.cmds| ensures run((w.cmds + x.cmds)[i]).Exited? {
              if i >= |w.cmds| { assert (w.cmds + x.cmds)[i] == x.cmds[i - |w.cmds|]; }
            }
          }
          Report(x.fs, Stream(msgs), w.cmds + x.cmds, Ok(()))
  }

  /** A successful PackageFuncs packaged the workflow and then, from the filesystem
      that left, the executor; the executor's packaging left the final filesystem. */
  lemma PackageFuncsStages(variant: Variant, fs: FS, cwd: Path, decode: Node -> Result<ProjectConfig>, run: Launcher)
    requires PackageFuncs(variant, fs, cwd, decode, run).outcome.Ok?
    ensures LoadConfig(fs, cwd, decode).Ok?
    ensures var lang := LoadConfig(fs, cwd, decode).value.0.language;
            var root := LoadConfig(fs, cwd, decode).value.1;
            var w := PackageComponent(variant, fs, "workflow", lang, root, run);
            && w.outcome.Ok?
            && PackageComponent(variant, w.fs, "executor", lang, root, run).outcome.Ok?
            && PackageFuncs(variant, fs, cwd, decode, run).fs == PackageComponent(variant, w.fs, "executor", lang, root, run).fs
  {
  }

  /** After a successful PackageFuncs both archives are in place: packaging the executor
      leaves the workflow's archive alone. */
  lemma BothArchivesShipped(variant: Variant, fs: FS, cwd: Path, decode: Node -> Result<ProjectConfig>, run: Launcher)
    requires PackageFuncs(variant, fs, cwd, decode, run).outcome.Ok?
    ensures LoadConfig(fs, cwd, decode).Ok?
    ensures var root := LoadConfig(fs, cwd, decode).value.1;
            var out := PackageFuncs(variant, fs, cwd, decode, run).fs;
            && ArchivePath(root, "workflow") in out && out[ArchivePath(root, "workflow")].Archive?
            && ArchivePath(root, "executor") in out && out[ArchivePath(root, "executor")].Archive?
  {
    var loaded := LoadConfig(fs, cwd, decode).value;
    var lang := loaded.0.language;
    var root := loaded.1;
    PackageFuncsStages(variant, fs, cwd, decode, run);
    var w := PackageComponent(variant, fs, "workflow", lang, root, run);
    ExecutorKeepsWorkflowArchive(variant, w.fs, lang, root, run);
  }

  /** Packaging the executor leaves the workflow's archive where it was. */
  lemma ExecutorKeepsWorkflowArchive(variant: Variant, fs: FS, lang: string, root: Path, run: Launcher)
    requires ArchivePath(root, "workflow") in fs && fs[ArchivePath(root, "workflow")].Archive?
    requires PackageComponent(variant, fs, "executor", lang, root, run).outcome.Ok?
    ensures ArchivePath(root, "workflow") in PackageComponent(variant, fs, "executor", lang, root, run).fs
    ensures PackageComponent(variant, fs, "executor", lang, root, run).fs[ArchivePath(root, "workflow")]
            == fs[ArchivePath(root, "workflow")]
  {
    var zip := ArchivePath(root, "workflow");
    assert !Under(zip, root + ["executor"]) by {
      assert zip[|root|] == "workflow";
      assert (root + ["executor"])[|root|] == "executor";
    }
    PackagingStaysInComponent(variant, fs, "executor", lang, root, run, zip);
  }
}
