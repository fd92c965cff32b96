/** The cloud side of the CLI: looking up the execution role (cli/src/core/utils.go,
    getArn) and applying or destroying the Terraform configuration of a project
    (cli/src/core/deployer.go, DeployWorkflow and TeardownWorkflow). What the external
    tools do is decided by the `Launcher` oracle. */
module Provisioning {
  import opened Wrappers
  import opened Strings
  import opened Paths
  import opened FileSystem
  import opened Process
  import opened ProjectRoot

  const RoleName := "switchboard-role"

  /** `aws iam get-role` printing only the role's ARN, run in the caller's directory. */
  const ArnCmd := Cmd(["aws", "iam", "get-role", "--role-name", RoleName, "--query", "Role.Arn", "--output", "text"], None)

  /** What getArn leaves behind: the messages it sent (it does not close the channel)
      and the ARN or the command's error. */
  datatype ArnLookup = ArnLookup(progress: seq<string>, arn: Result<string>)

  /** getArn: one command, one message. On success the ARN is the command's output
      without surrounding white space, and is reported quoted; on failure the error is
      reported and returned as it is. */
  function GetArn(run: Launcher): (r: ArnLookup)
    ensures r.arn.Ok? <==> run(ArnCmd).Exited?
    ensures r.arn.Ok? ==>
              r.arn.value == TrimSpace(run(ArnCmd).stdout) && TrimSpace(r.arn.value) == r.arn.value
              && r.progress == ["Retrieved arn: '" + r.arn.value + "'"]
    ensures r.arn.Err? ==>
              r.arn.msg == run(ArnCmd).err
              && r.progress == ["Error querying for switchboard-role arn: " + run(ArnCmd).err]
  {
    match run(ArnCmd)
    case Failed(err) => ArnLookup(["Error querying for switchboard-role arn: " + err], Err(err))
    case Exited(out) =>
      var arn := TrimSpace(out);
      TrimSpaceIdempotent(out);
      ArnLookup(["Retrieved arn: '" + arn + "'"], Ok(arn))
  }

  /** What DeployWorkflow and TeardownWorkflow leave behind: the progress channel's
      events, the commands launched and the returned error. */
  datatype Run = Run(events: seq<Event>, cmds: seq<Cmd>, outcome: Result<()>)

  function TerraformDir(root: Path): Path {
    root + ["terraform"]
  }

  function InitCmd(root: Path): Cmd {
    Cmd(["terraform", "init"], Some(TerraformDir(root)))
  }

  function ApplyCmd(root: Path): Cmd {
    Cmd(["terraform", "apply", "-auto-approve"], Some(TerraformDir(root)))
  }

  function DestroyCmd(root: Path): Cmd {
    Cmd(["terraform", "destroy", "-auto-approve"], Some(TerraformDir(root)))
  }

  const DeployStartMsg := "Initializing and applying Terraform..."

  const DeployedMsg := "Workflow deployed successfully."

  const TeardownStartMsg := "Tearing down workflow components..."

  const PurgedMsg := "Workflow components purged from the cloud."

  /** The messages and result of one Terraform step that failed with `err`. */
  function StepFailure(step: string, err: string): (string, Result<()>) {
    ("Error running terraform " + step + ": " + err, Err("error running terraform " + step + ": " + err))
  }

  /** Closes the channel after `msgs`, checking on the way that the consumer reads
      exactly `msgs`. */
  function Finished(msgs: seq<string>, cmds: seq<Cmd>, outcome: Result<()>): (r: Run)
    ensures ClosedOnce(r.events) && Drain(r.events) == Some(msgs)
    ensures r.cmds == cmds && r.outcome == outcome
  {
    StreamDrains(msgs);
    Run(Stream(msgs), cmds, outcome)
  }

  /** DeployWorkflow: the opening message is sent first on every path and the channel
      is closed exactly once. Without a project root nothing is launched. Otherwise
      `terraform init` runs in the project's terraform directory, and `terraform
      apply` runs there only after init succeeded. The run succeeds exactly when a
      root is found and both commands succeed, and then reports the deployment last. */
  function DeployWorkflow(fs: FS, cwd: Path, run: Launcher): (r: Run)
    ensures ClosedOnce(r.events) && Drain(r.events).Some?
    ensures |Drain(r.events).value| > 0 && Drain(r.events).value[0] == DeployStartMsg
    ensures FindProjectRoot(fs, cwd).Err? ==>
              Drain(r.events) == Some([DeployStartMsg]) && r.cmds == [] && r.outcome == Err(NotFoundMsg)
    ensures FindProjectRoot(fs, cwd).Ok? ==>
              var root := FindProjectRoot(fs, cwd).value;
              && 1 <= |r.cmds| <= 2 && r.cmds[0] == InitCmd(root)
              && (|r.cmds| == 2 <==> run(InitCmd(root)).Exited?)
              && (|r.cmds| == 2 ==> r.cmds[1] == ApplyCmd(root))
    ensures r.outcome.Ok? <==>
              FindProjectRoot(fs, cwd).Ok? && AllSucceed(run, r.cmds) && |r.cmds| == 2
    ensures r.outcome.Ok? ==> Drain(r.events) == Some([DeployStartMsg, DeployedMsg])
    ensures r.outcome.Err? && |r.cmds| > 0 ==>
              var failed := run(r.cmds[|r.cmds| - 1]);
              var step := if |r.cmds| == 1 then "init" else "apply";
              failed.Failed?
              && Drain(r.events) == Some([DeployStartMsg, StepFailure(step, failed.err).0])
              && r.outcome == StepFailure(step, failed.err).1
  {
    match FindProjectRoot(fs, cwd)
    case Err(e) => Finished([DeployStartMsg], [], Err(e))
    case Ok(root) =>
      match run(InitCmd(root))
      case Failed(err) =>
        var (msg, outcome) := StepFailure("init", err);
        Finished([DeployStartMsg, msg], [InitCmd(root)], outcome)
      case Exited(_) =>
        match run(ApplyCmd(root))
        case Failed(err) =>
          var (msg, outcome) := StepFailure("apply", err);
          Finished([DeployStartMsg, msg], [InitCmd(root), ApplyCmd(root)], outcome)
        case Exited(_) =>
          Finished([DeployStartMsg, DeployedMsg], [InitCmd(root), ApplyCmd(root)], Ok(()))
  }

  /** TeardownWorkflow: the opening message is sent first on every path and the
      channel is closed exactly once. Without a project root nothing is launched;
      otherwise exactly one `terraform destroy` runs in the project's terraform
      directory, and the run succeeds exactly when it does. */
  function TeardownWorkflow(fs: FS, cwd: Path, run: Launcher): (r: Run)
    ensures ClosedOnce(r.events) && Drain(r.events).Some?
    ensures |Drain(r.events).value| > 0 && Drain(r.events).value[0] == TeardownStartMsg
    ensures FindProjectRoot(fs, cwd).Err? ==>
              Drain(r.events) == Some([TeardownStartMsg]) && r.cmds == [] && r.outcome == Err(NotFoundMsg)
    ensures FindProjectRoot(fs, cwd).Ok? ==> r.cmds == [DestroyCmd(FindProjectRoot(fs, cwd).value)]
    ensures r.outcome.Ok? <==>
              FindProjectRoot(fs, cwd).Ok? && run(DestroyCmd(FindProjectRoot(fs, cwd).value)).Exited?
    ensures r.outcome.Ok? ==> Drain(r.events) == Some([TeardownStartMsg, PurgedMsg])
    ensures r.outcome.Err? && |r.cmds| > 0 ==>
              run(r.cmds[0]).Failed?
              && Drain(r.events) == Some([TeardownStartMsg, StepFailure("destroy", run(r.cmds[0]).err).0])
              && r.outcome == StepFailure("destroy", run(r.cmds[0]).err).1
  {
    match FindProjectRoot(fs, cwd)
    case Err(e) => Finished([TeardownStartMsg], [], Err(e))
    case Ok(root) =>
      match run(DestroyCmd(root))
      case Failed(err) =>
        var (msg, outcome) := StepFailure("destroy", err);
        Finished([TeardownStartMsg, msg], [DestroyCmd(root)], outcome)
      case Exited(_) =>
        Finished([TeardownStartMsg, PurgedMsg], [DestroyCmd(root)], Ok(()))
  }

  /** Both Terraform runs work in the directory of the nearest enclosing project: the
      commands run below the nearest ancestor of `cwd` holding the marker file. */
  lemma TerraformRunsInNearestProject(fs: FS, cwd: Path, run: Launcher, root: Path)
    requires Under(cwd, root) && HasMarker(fs, root)
    requires forall k | |root| < k <= |cwd| :: !HasMarker(fs, cwd[..k])
    ensures DeployWorkflow(fs, cwd, run).cmds[0].dir == Some(root + ["terraform"])
    ensures TeardownWorkflow(fs, cwd, run).cmds == [DestroyCmd(root)]
  {
    FindsNearestMarker(fs, root, cwd);
  }
}
