/** Per-language dependency installation (cli/src/core/utils.go, installDependencies
    and its three installers) and the divergent installers of cli/src/core/deployer.go.

    An installer's observable behaviour is its progress messages, the commands it
    launches and its returned error; `Effects` records the three. What a launched tool
    does to the filesystem is not modelled. */
module Installer {
  import opened Wrappers
  import opened Paths
  import opened FileSystem
  import opened Process

  datatype Effects = Effects(progress: seq<string>, cmds: seq<Cmd>, outcome: Result<()>)

  predicate Supported(lang: string) {
    lang == "py" || lang == "ts" || lang == "go"
  }

  const PipHeader := "Installing Python dependencies from requirements.txt..."
  const NpmHeader := "Installing Node.js dependencies from package.json..."
  const GoHeader := "Tidying and building Go dependencies..."

  function Header(lang: string): string
    requires Supported(lang)
  {
    if lang == "py" then PipHeader else if lang == "ts" then NpmHeader else GoHeader
  }

  /** The file an installer looks for in the component directory. */
  function Manifest(lang: string): string
    requires Supported(lang)
  {
    if lang == "py" then "requirements.txt" else if lang == "ts" then "package.json" else "go.mod"
  }

  function PipCmd(comp: Path, build: Path): Cmd {
    Cmd(["pip", "install", "-r", Render(comp + ["requirements.txt"]), "-t", Render(build)], None)
  }

  function NpmCmd(prefix: Path): Cmd {
    Cmd(["npm", "install", "--prefix", Render(prefix)], None)
  }

  function TidyCmd(comp: Path): Cmd {
    Cmd(["go", "mod", "tidy"], Some(comp))
  }

  function BuildCmd(comp: Path, build: Path): Cmd {
    Cmd(["go", "build", "-o", Render(build)], Some(comp))
  }

  /** The commands an installer launches when everything succeeds, in order, as an
      independent reference for the installers below. */
  function Plan(lang: string, comp: Path, build: Path): seq<Cmd>
    requires Supported(lang)
  {
    if lang == "py" then [PipCmd(comp, build)]
    else if lang == "ts" then [NpmCmd(build)]
    else [TidyCmd(comp), BuildCmd(comp, build)]
  }

  /** The name each planned command is reported under when it fails. */
  function Labels(lang: string): seq<string>
    requires Supported(lang)
  {
    if lang == "py" then ["pip install"]
    else if lang == "ts" then ["npm install"]
    else ["go mod tidy", "go build"]
  }

  function NoEntError(p: Path): string {
    "stat " + Render(p) + ": " + ErrNoEnt
  }

  /** Launches `cmd`; on failure reports `tool` and stops with the wrapped error. */
  function Launch(run: Launcher, header: string, cmd: Cmd, tool: string, next: Effects): Effects {
    match run(cmd)
    case Failed(err) =>
      Effects([header, "Error: " + tool + " failed: " + err], [cmd], Err(tool + " failed: " + err))
    case Exited(_) => Effects(next.progress, [cmd] + next.cmds, next.outcome)
  }

  function Missing(header: string, manifest: string, path: Path): Effects {
    Effects([header, "No " + manifest + " found."], [], Err(NoEntError(path)))
  }

  function InstallPip(fs: FS, comp: Path, build: Path, run: Launcher): Effects {
    var path := comp + ["requirements.txt"];
    if NotExist(fs, path) then Missing(PipHeader, "requirements.txt", path)
    else Launch(run, PipHeader, PipCmd(comp, build), "pip install", Effects([PipHeader], [], Ok(())))
  }

  function InstallNpm(fs: FS, comp: Path, build: Path, run: Launcher): Effects {
    var path := comp + ["package.json"];
    if NotExist(fs, path) then Missing(NpmHeader, "package.json", path)
    else Launch(run, NpmHeader, NpmCmd(build), "npm install", Effects([NpmHeader], [], Ok(())))
  }

  function InstallGo(fs: FS, comp: Path, build: Path, run: Launcher): (e: Effects)
    ensures !NotExist(fs, comp + ["go.mod"]) ==> e.cmds == UntilFailure(run, [TidyCmd(comp), BuildCmd(comp, build)])
  {
    UntilFailureOfOneOrTwo(run, TidyCmd(comp), BuildCmd(comp, build));
    var path := comp + ["go.mod"];
    if NotExist(fs, path) then Missing(GoHeader, "go.mod", path)
    else
      Launch(run, GoHeader, TidyCmd(comp), "go mod tidy",
        Launch(run, GoHeader, BuildCmd(comp, build), "go build", Effects([GoHeader], [], Ok(()))))
  }

  /** installDependencies (utils.go). An unsupported language fails with no message and
      no command. Otherwise the header comes first; a missing manifest (and only a
      missing one, not another stat failure) stops before any launch; the launched
      commands are a prefix of the plan, each one launched only after all earlier ones
      succeeded; a failing command is reported by name and ends the install.
      Success means the whole plan ran and succeeded, with only the header emitted. */
  function InstallDependencies(fs: FS, lang: string, comp: Path, build: Path, run: Launcher): (e: Effects)
    ensures !Supported(lang) ==> e == Effects([], [], Err("unsupported language: " + lang))
    ensures Supported(lang) ==> |e.progress| > 0 && e.progress[0] == Header(lang)
    ensures Supported(lang) ==> |e.cmds| <= |Plan(lang, comp, build)| && e.cmds == Plan(lang, comp, build)[..|e.cmds|]
    ensures forall i | 0 <= i < |e.cmds| - 1 :: run(e.cmds[i]).Exited?
    ensures Supported(lang) && NotExist(fs, comp + [Manifest(lang)]) ==>
              e == Effects([Header(lang), "No " + Manifest(lang) + " found."], [], Err(NoEntError(comp + [Manifest(lang)])))
    ensures Supported(lang) && |e.cmds| > 0 && run(e.cmds[|e.cmds| - 1]).Failed? ==>
              var err := run(e.cmds[|e.cmds| - 1]).err;
              var tool := Labels(lang)[|e.cmds| - 1];
              e.progress == [Header(lang), "Error: " + tool + " failed: " + err]
              && e.outcome == Err(tool + " failed: " + err)
    ensures e.outcome.Ok? <==>
              Supported(lang) && !NotExist(fs, comp + [Manifest(lang)])
              && e.cmds == Plan(lang, comp, build) && AllSucceed(run, e.cmds)
    ensures e.outcome.Ok? ==> e.progress == [Header(lang)]
    ensures Supported(lang) && !NotExist(fs, comp + [Manifest(lang)]) ==>
              e.cmds == UntilFailure(run, Plan(lang, comp, build))
    ensures Supported(lang) && !NotExist(fs, comp + [Manifest(lang)]) && e.outcome.Err? ==>
              |e.cmds| > 0 && run(e.cmds[|e.cmds| - 1]).Failed?
  {
    if lang == "py" then InstallPip(fs, comp, build, run)
    else if lang == "ts" then InstallNpm(fs, comp, build, run)
    else if lang == "go" then InstallGo(fs, comp, build, run)
    else Effects([], [], Err("unsupported language: " + lang))
  }

  /** A failed `go mod tidy` is never followed by `go build`. */
  lemma BuildNeverAfterFailedTidy(fs: FS, comp: Path, build: Path, run: Launcher)
    requires run(TidyCmd(comp)).Failed?
    ensures BuildCmd(comp, build) !in InstallDependencies(fs, "go", comp, build, run).cmds
    ensures InstallDependencies(fs, "go", comp, build, run).outcome.Err?
  {
    var e := InstallDependencies(fs, "go", comp, build, run);
    assert |e.cmds| <= 1;
  }

  /** deployer.go's variant. pip launches without looking for its manifest; npm and go
      treat a missing manifest as nothing to do; npm installs into the component
      directory instead of the scratch directory. */
  function DeployerPlan(lang: string, comp: Path, build: Path): seq<Cmd>
    requires Supported(lang)
  {
    if lang == "ts" then [NpmCmd(comp)] else Plan(lang, comp, build)
  }

  /** Launches `cmd`; on failure stops with the wrapped error and reports nothing. */
  function LaunchQuietly(run: Launcher, header: string, cmd: Cmd, tool: string, next: Effects): Effects {
    match run(cmd)
    case Failed(err) => Effects([header], [cmd], Err(tool + " failed: " + err))
    case Exited(_) => Effects(next.progress, [cmd] + next.cmds, next.outcome)
  }

  function DeployerInstallPip(comp: Path, build: Path, run: Launcher): (e: Effects)
    ensures e.outcome.Err? ==>
              run(PipCmd(comp, build)).Failed?
              && e.progress == [PipHeader, "Error: pip install failed: " + run(PipCmd(comp, build)).err]
  {
    var e := Launch(run, PipHeader, PipCmd(comp, build), "pip install", Effects([PipHeader], [], Ok(())));
    assert run(PipCmd(comp, build)).Failed? ==>
             "Error: " + "pip install" + " failed: " + run(PipCmd(comp, build)).err
             == "Error: pip install failed: " + run(PipCmd(comp, build)).err;
    e
  }

  function DeployerInstallNpm(fs: FS, comp: Path, run: Launcher): Effects {
    if NotExist(fs, comp + ["package.json"]) then
      Effects([NpmHeader, "No package.json found, skipping npm install."], [], Ok(()))
    else LaunchQuietly(run, NpmHeader, NpmCmd(comp), "npm install", Effects([NpmHeader], [], Ok(())))
  }

  function DeployerInstallGo(fs: FS, comp: Path, build: Path, run: Launcher): (e: Effects)
    ensures !NotExist(fs, comp + ["go.mod"]) ==> e.cmds == UntilFailure(run, [TidyCmd(comp), BuildCmd(comp, build)])
  {
    UntilFailureOfOneOrTwo(run, TidyCmd(comp), BuildCmd(comp, build));
    if NotExist(fs, comp + ["go.mod"]) then
      Effects([GoHeader, "No go.mod found, skipping go build."], [], Ok(()))
    else
      LaunchQuietly(run, GoHeader, TidyCmd(comp), "go mod tidy",
        LaunchQuietly(run, GoHeader, BuildCmd(comp, build), "go build", Effects([GoHeader], [], Ok(()))))
  }

  /** The skipping message deployer.go emits for a missing manifest. */
  function SkipMsg(lang: string): string
    requires lang == "ts" || lang == "go"
  {
    if lang == "ts" then "No package.json found, skipping npm install."
    else "No go.mod found, skipping go build."
  }

  /** installDependencies (deployer.go): same dispatch and headers; commands are a
      prefix of the deployer plan, launched only after earlier ones succeeded. A
      missing npm or go manifest succeeds with the skipping message and no command;
      pip does not check. Only pip reports a failed command; npm and go fail silently. */
  function DeployerInstallDependencies(fs: FS, lang: string, comp: Path, build: Path, run: Launcher): (e: Effects)
    ensures !Supported(lang) ==> e == Effects([], [], Err("unsupported language: " + lang))
    ensures Supported(lang) ==> |e.progress| > 0 && e.progress[0] == Header(lang)
    ensures Supported(lang) ==> |e.cmds| <= |DeployerPlan(lang, comp, build)|
                                && e.cmds == DeployerPlan(lang, comp, build)[..|e.cmds|]
    ensures forall i | 0 <= i < |e.cmds| - 1 :: run(e.cmds[i]).Exited?
    ensures (lang == "ts" || lang == "go") && NotExist(fs, comp + [Manifest(lang)]) ==>
              e == Effects([Header(lang), SkipMsg(lang)], [], Ok(()))
    ensures lang == "py" ==> e.cmds == DeployerPlan(lang, comp, build)
    ensures (lang == "ts" || lang == "go") && e.outcome.Err? ==> e.progress == [Header(lang)]
    ensures e.outcome.Err? && |e.cmds| > 0 ==>
              run(e.cmds[|e.cmds| - 1]).Failed? && e.outcome.msg == Labels(lang)[|e.cmds| - 1] + " failed: " + run(e.cmds[|e.cmds| - 1]).err
    ensures e.outcome.Ok? ==> e.progress == [Header(lang)] || (lang != "py" && e.progress == [Header(lang), SkipMsg(lang)])
    ensures e.outcome.Ok? <==>
              Supported(lang)
              && (((lang == "ts" || lang == "go") && NotExist(fs, comp + [Manifest(lang)]))
                  || (e.cmds == DeployerPlan(lang, comp, build) && AllSucceed(run, e.cmds)))
    ensures Supported(lang) && !((lang == "ts" || lang == "go") && NotExist(fs, comp + [Manifest(lang)])) ==>
              e.cmds == UntilFailure(run, DeployerPlan(lang, comp, build))
    ensures Supported(lang) && e.outcome.Err? ==> |e.cmds| > 0 && run(e.cmds[|e.cmds| - 1]).Failed?
    ensures lang == "py" && e.outcome.Err? ==>
              e.progress == [PipHeader, "Error: pip install failed: " + run(PipCmd(comp, build)).err]
  {
    if lang == "py" then DeployerInstallPip(comp, build, run)
    else if lang == "ts" then DeployerInstallNpm(fs, comp, run)
    else if lang == "go" then DeployerInstallGo(fs, comp, build, run)
    else Effects([], [], Err("unsupported language: " + lang))
  }

  /** Where the variants part: a missing npm or go manifest fails the utils.go install
      but is skipped successfully by the deployer.go one. */
  lemma MissingManifestVariants(fs: FS, lang: string, comp: Path, build: Path, run: Launcher)
    requires (lang == "ts" || lang == "go") && NotExist(fs, comp + [Manifest(lang)])
    ensures InstallDependencies(fs, lang, comp, build, run).outcome.Err?
    ensures DeployerInstallDependencies(fs, lang, comp, build, run).outcome.Ok?
    ensures InstallDependencies(fs, lang, comp, build, run).cmds == []
            == DeployerInstallDependencies(fs, lang, comp, build, run).cmds
  {
  }

  /** Without requirements.txt the utils.go pip install stops before launching, while
      the deployer.go one launches pip regardless. */
  lemma PipManifestVariants(fs: FS, comp: Path, build: Path, run: Launcher)
    requires NotExist(fs, comp + ["requirements.txt"])
    ensures InstallDependencies(fs, "py", comp, build, run).cmds == []
    ensures DeployerInstallDependencies(fs, "py", comp, build, run).cmds == [PipCmd(comp, build)]
  {
  }

  /** When every manifest is present the variants launch the same commands, except
      that deployer.go's npm installs into the component directory. */
  lemma PlansAgreeExceptNpm(lang: string, comp: Path, build: Path)
    requires Supported(lang)
    ensures lang != "ts" ==> DeployerPlan(lang, comp, build) == Plan(lang, comp, build)
    ensures lang == "ts" ==> DeployerPlan(lang, comp, build) == [NpmCmd(comp)] && Plan(lang, comp, build) == [NpmCmd(build)]
  {
  }
}
