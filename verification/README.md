# switchboard, modelled in Dafny

Switchboard lets a user write a serverless workflow in Python. It has three parts.

- **Orchestration engine.** The Python SDK's `Workflow` class (sdk/py/src/switchboard/workflow.py) is a resumable state machine. Every invocation rebuilds it from an invocation context and the run's stored state. It then decides, step by step, whether the user's next call is added, retried, skipped or waited for.
- **Packager and deployer.** The Go CLI (cli/src/core/utils.go and cli/src/core/deployer.go) finds the project, copies each component's sources into a scratch directory, installs dependencies and zips the result. It also applies or destroys the project's Terraform configuration.
- **Dashboard.** A small terminal dashboard (cli/src/tui/init.go) moves a cursor over a grid of six options.

This project models those parts as pure functions and proves what they promise.

- **Filesystem.** The filesystem is a map from clean absolute paths (lists of segments) to nodes. A node is a directory, a file with content, or an archive given as its set of entries (`FileSystem`).
- **External commands.** Commands are recorded as argv plus working directory. What each command does is decided by a `Launcher` oracle. As a result, every exit of every tool is covered (`Process`).
- **Progress channel.** The channel the Go functions write to is the sequence of sends followed by the single deferred close. `Drain` is the consumer's `range` loop over it.
- **Python engine.** The engine's in-place mutations become functions that return the new engine, state, context and database. `curr_step` aliases an element of `state.steps`, so it is kept as an index into that list.
- **Two Go variants.** The two Go files declare diverging copies of the same helpers. `Packaging.Variant` says which copy a run follows.

The main results:

- **`SourceCopy.CopySource` and `SourceCopy.WalkCopy`.** The copy into the scratch directory is stated declaratively by `CopySource`: which entries are kept, where each lands, and when the copy fails. `WalkCopy` performs the walk callback by callback, and is proved to reach the same result for every parent-first visiting order.
- **`Packaging.ArchiveHoldsKeptFiles`.** Every kept file of a component ends up in its archive, under its relative name and with its content.
- **`Packaging.StaleScratchFileShipped`.** The scratch directory is not emptied before the copy, so a stale file lying there is shipped as well.
- **`Packaging.PackagingStaysInComponent`.** Packaging touches nothing outside the component.
- **`Packaging.BothArchivesShipped`.** After a successful run, both archives are in place.
- **`Provisioning.DeployWorkflow` and `Provisioning.TeardownWorkflow`.** Terraform commands run only after everything before them succeeded. Both run in the nearest project's `terraform` directory.
- **`Workflow.ResumeKeepsFlags`.** Resuming a workflow run never clears a step flag.
- **`Workflow.AddStepKeepsIdsConsecutive`.** Adding a step keeps step ids consecutive and the context tracking the new step.
- **`Workflow.DoneTwice`.** `done` is idempotent.
- **`Tui.RunNeverPanics`.** The dashboard's cursor never leaves the grid, so no message sequence makes it panic.

The files, one module each:

| file | module | what it holds |
|---|---|---|
| wrappers.dfy | `Wrappers` | `Option`, `Result` |
| strings.dfy | `Strings` | `HasPrefix`, `HasSuffix`, `TrimPrefix`, `strings.Join` with `/`, `unicode.IsSpace`, `TrimSpace` |
| paths.dfy | `Paths` | paths as segment lists and their rendering as `/`-separated strings |
| filesystem.dfy | `FileSystem` | nodes, `os.MkdirAll`, `os.RemoveAll`, `os.Create` |
| process.dfy | `Process` | commands, the launcher oracle, the progress channel |
| skiplist.dfy | `SkipList` | `shouldSkip` |
| project_root.dfy | `ProjectRoot` | `findProjectRoot`, `loadConfig` |
| copy_source.dfy | `SourceCopy` | `copySource`, declaratively and as a walk |
| archive.dfy | `ZipArchive` | `zipDirectory` |
| installer.dfy | `Installer` | both files' `installDependencies` and their installers |
| packaging.dfy | `Packaging` | both `packageComponent`s, `PackageFuncs` |
| provisioning.dfy | `Provisioning` | `getArn`, `DeployWorkflow`, `TeardownWorkflow` |
| workflow_engine.dfy | `Workflow` | the Python engine |
| tui_grid.dfy | `Tui` | the dashboard's model, `Update` and `View` |

## Model

| member | source | states |
|---|---|---|
| Strings.TrimPrefix | cli/src/core/utils.go:259 | when `s` starts with the prefix, the prefix followed by the result gives back `s`; otherwise `s` is returned unchanged |
| Strings.TrimSpace | cli/src/core/utils.go:69 | the result is an infix of the input, with only white space cut at either end, and it neither starts nor ends with white space |
| Strings.TrimSpaceIdempotent | cli/src/core/utils.go:69-71 | trimming an already trimmed ARN changes nothing |
| Paths.RenderBelow | cli/src/core/utils.go:259 | trimming `source + "/"` off the rendering of a path below `source` leaves the path's own segments joined by `/` |
| Paths.RenderConcat | cli/src/core/utils.go:259 | the rendering of a non-empty directory extended by non-empty segments is the directory's rendering, a `/`, and those segments joined by `/` |
| FileSystem.MkdirAll | cli/src/core/utils.go:85 | `os.MkdirAll` succeeds exactly when no prefix of the path exists as a non-directory, and then every prefix is a directory; otherwise the error names the deepest such prefix with `not a directory`; old entries keep their nodes, and every new entry is a prefix of the path |
| FileSystem.RemoveAll | cli/src/core/deployer.go:89 | exactly the entries at or below the path disappear, and the rest keep their nodes |
| FileSystem.Create | cli/src/core/utils.go:240 | `os.Create` succeeds exactly on a non-directory whose parent is a directory and no ancestor is a file; it leaves an empty file and changes nothing else |
| Process.StreamDrains | cli/src/core/deployer.go:56 | a producer that sends messages and then returns through its deferred close closes the channel exactly once, and the consumer's `range` loop ends having read exactly those messages, in order |
| Process.UntilFailureStopsAtFailure | cli/src/core/utils.go:156-184 | a runner that stops at the first failing command launches a prefix of its list in which every command but the last succeeded; it launches the whole list exactly when every command succeeds, and otherwise its last command failed |
| SkipList.ShouldSkip | cli/src/core/utils.go:223-237 | an entry is skipped exactly when it is a directory with a skip-listed name, or its name ends in `_lambda.zip` |
| SkipList.SkipForFiles | cli/src/core/utils.go:226-235 | a file is skipped exactly when it has the archive suffix, and whatever is skipped as a file is skipped as a directory too |
| SkipList.SkipTable | cli/src/core/utils_test.go:14-38 | the skip decisions of the repository's own unit test table |
| ProjectRoot.FindProjectRoot | cli/src/core/utils.go:18-36 | a found root is an ancestor of the working directory that holds `switchboard.json`, with no nearer ancestor holding one; given the working directory, the search fails with the fixed message exactly when no ancestor holds it |
| ProjectRoot.FindsNearestMarker | cli/src/core/utils.go:18-36 | from any directory below a marked root with no nearer marker, the search returns that root |
| ProjectRoot.LoadConfig | cli/src/core/utils.go:38-56 | without a root the search's error is returned; a marker that is a directory fails the read with the wrapped `is a directory` error; otherwise loading succeeds exactly when the marker decodes, gives that decoding and the root, and a decoding error is returned wrapped as a parse error |
| ProjectRoot.LoadsNearestProject | cli/src/core/utils.go:38-56 | from any directory below a marked root with no nearer marker, a marker file that decodes is loaded, together with that root |
| SourceCopy.KeptIffNoSkippedAncestor | cli/src/core/utils.go:194-199 | an entry is copied exactly when neither it nor any directory between the component and it is skipped, since the walk does not enter a skipped directory |
| SourceCopy.TargetInjective | cli/src/core/utils.go:202 | distinct source entries are written to distinct places in the scratch directory |
| SourceCopy.CopySource | cli/src/core/utils.go:189-221 | the copy fails exactly when a kept entry's target exists with the other kind; on success every kept entry lands at its target with its node, nothing is lost, and every changed entry is inside the scratch directory and is the copy of a kept entry |
| SourceCopy.ScratchNeverCopied | cli/src/core/utils.go:224 | nothing inside the scratch directory `.dist` is copied, so the copy never recurses into its own output |
| SourceCopy.PrunedSubtree | cli/src/core/utils.go:195-197 | below a directory that is not copied, nothing is copied |
| SourceCopy.ParentFirstIsWalkOrder | cli/src/core/utils.go:190 | on a well-formed tree, every listing that visits each entry once and after its parent is an order the walk can take |
| SourceCopy.WalkPrefixSound | cli/src/core/utils.go:190-220 | after any number of callbacks, either the walk stopped on a clash that makes the whole copy fail, or the scratch directory holds exactly the copies of the kept entries seen so far |
| SourceCopy.WalkCopy | cli/src/core/utils.go:189-221 | the walk driven callback by callback, stopping at the first error, gives exactly the declarative copy, whatever the parent-first visiting order |
| ZipArchive.ZipDirectory | cli/src/core/utils.go:239-283 | the archive is written exactly when its target can be created; it holds one entry for every path the walk visits, named relative to the source and carrying that path's node, and nothing else; nothing else in the filesystem changes |
| ZipArchive.EntryNameIsRelative | cli/src/core/utils.go:259-262 | a path below the source is stored under its segments below the source joined by `/`, with a trailing `/` for a directory |
| ZipArchive.RootEntryName | cli/src/core/utils.go:249-262 | the walked directory itself is also stored, under its full rendered path plus `/`, because the trimmed prefix does not match it |
| ZipArchive.ArchiveHoldsFile | cli/src/core/utils.go:259-277 | every file below the source reaches the archive under its relative name, with its content |
| Installer.InstallDependencies | cli/src/core/utils.go:109-187 | utils.go installers: an unsupported language fails with its message and nothing sent; otherwise the header comes first and a missing manifest stops before any launch; with the manifest present the commands launched are exactly the language's plan cut after its first failing command; a failing command is reported by name and ends the install, so a failed install ends on a failed command; success means the whole plan ran |
| Installer.BuildNeverAfterFailedTidy | cli/src/core/utils.go:168-183 | after a failed `go mod tidy`, `go build` is never launched and the install fails |
| Installer.DeployerInstallDependencies | cli/src/core/deployer.go:109-179 | deployer.go installers: pip launches without checking its manifest; a missing npm or go manifest is skipped successfully with its message; otherwise the commands launched are exactly the deployer plan cut after its first failing command, and a failed install ends on a failed command; a pip failure reports `Error: pip install failed:` with the process error after the header; npm and go failures are returned without a message; success means the whole plan ran, or a manifest was skipped |
| Installer.MissingManifestVariants | cli/src/core/deployer.go:137-160 | a missing npm or go manifest makes the utils.go install fail and the deployer.go one succeed, neither launching anything |
| Installer.PipManifestVariants | cli/src/core/deployer.go:124-135 | without `requirements.txt` only the deployer.go pip installer launches pip |
| Installer.PlansAgreeExceptNpm | cli/src/core/deployer.go:137-152 | both variants plan the same commands, except that deployer.go's npm installs into the component directory rather than the scratch directory |
| Packaging.Install | cli/src/core/utils.go:95-97 | an unsupported language fails with `unsupported language:` and launches nothing; a successful install had a supported language and launched only successful commands, under utils.go its whole plan; a failed install that launched its plan ends on a failed command |
| Packaging.ArchiveOutsideScratch | cli/src/core/utils.go:84-100 | the archive lies beside the scratch directory, not inside it |
| Packaging.Finish | cli/src/core/utils.go:95-106 | the commands are the installer's; a failed install is returned wrapped as `failed to install dependencies:` after the installer's messages, with nothing archived; after a successful install the packaging succeeds exactly when the archive can be written, leaves the archiving's filesystem, and wraps an archiving error as `failed to create zip file:`; a success reports the opening message, the installer's header and the archive path last |
| Packaging.Build | cli/src/core/utils.go:92-107 | a copy error is returned wrapped as `failed to copy source code:` after only the opening message, with nothing launched and the filesystem untouched; after a successful copy the result is exactly installing and archiving the copy |
| Packaging.PackageComponent | cli/src/core/deployer.go:77-107 | the opening message always comes first; a missing component directory fails with nothing launched or written; a success ends with the archive path and leaves an archive there; under deployer.go nothing remains below the scratch directory on any return after it was created |
| Packaging.ComponentOutcome | cli/src/core/utils.go:76-107 | for an existing component: a scratch-directory error is returned wrapped as `failed to create build directory:`, a copy error as `failed to copy source code:`, each after only the opening message and with nothing launched; after a successful copy the messages, commands and outcome are exactly those of installing and archiving the copy |
| Packaging.UnsupportedLanguageFails | cli/src/core/utils_test.go:158-169 | packaging a component in an unsupported language fails having sent only the opening message and launched nothing, under either variant |
| Packaging.CopyReachesScratch | cli/src/core/utils.go:85-95 | creating the scratch directory changes no skip decision, so every kept file is in the scratch directory when the archive is written |
| Packaging.PackagedStages | cli/src/core/utils.go:76-107 | a successful packaging created the scratch directory, copied and archived successfully, and the resulting filesystem is the archiving's result (minus the scratch directory under deployer.go) |
| Packaging.ArchiveHoldsKeptFiles | cli/src/core/utils.go:76-107 | end to end: every kept file of a well-formed component is in the component's archive, under its relative name and with its content |
| Packaging.ScratchFileSurvivesCopy | cli/src/core/utils.go:189-221 | a file already in the scratch directory that no source entry overwrites survives the copy unchanged |
| Packaging.StaleScratchFileShipped | cli/src/core/utils.go:84-89 | the scratch directory is not emptied first, so such a leftover file is shipped in the archive too, under either variant |
| Packaging.StagesStayInComponent | cli/src/core/utils.go:84-103 | creating the scratch directory, copying and archiving inside the component change no entry outside it |
| Packaging.PackagingStaysInComponent | cli/src/core/deployer.go:77-107 | a successful packaging leaves every entry outside the component directory present and unchanged |
| Packaging.PackageFuncs | cli/src/core/deployer.go:55-75 | the channel is closed exactly once on every return; a configuration error is returned with nothing sent or launched; a workflow failure stops before the executor, with the wrapped error; after the workflow succeeds, the executor is packaged from the filesystem it left, the commands are both components' in order, an executor failure is returned as `error packaging executor:` with both components' messages sent, and otherwise the run succeeds ending with the completion message |
| Packaging.PackageFuncsStages | cli/src/core/deployer.go:58-71 | a successful run packaged the workflow, then the executor from the filesystem the workflow left, and ended with the executor's filesystem |
| Packaging.BothArchivesShipped | cli/src/core/deployer.go:65-74 | after a successful run, both the workflow's and the executor's archives are in place |
| Packaging.ExecutorKeepsWorkflowArchive | cli/src/core/deployer.go:69-71 | packaging the executor leaves the workflow's archive as it was |
| Provisioning.GetArn | cli/src/core/utils.go:58-74 | the lookup succeeds exactly when the `aws iam get-role` command does; the ARN is the output with white space trimmed and is reported quoted; a failure is reported and returned unchanged |
| Provisioning.DeployWorkflow | cli/src/core/deployer.go:279-311 | the opening message comes first and the channel is closed once; without a project nothing is launched; `terraform init` runs first in the project's `terraform` directory, and `apply` runs only after init succeeds; the deploy succeeds exactly when both succeed; a failing step is reported and returned wrapped |
| Provisioning.TeardownWorkflow | cli/src/core/deployer.go:313-336 | the opening message comes first and the channel is closed once; with a project, exactly one `terraform destroy` runs; the teardown succeeds exactly when it does; a failure is reported and returned wrapped |
| Provisioning.TerraformRunsInNearestProject | cli/src/core/deployer.go:285-292 | both Terraform runs work in the `terraform` directory of the nearest enclosing project |
| Workflow.GetContext | sdk/py/src/switchboard/workflow.py:98-131 | a context is accepted exactly when it has all five fields, three integer ids and an object cache; the first missing field is reported by name; a fresh trigger counts as executed, completed and successful; otherwise the flags are the supplied values' truthiness |
| Workflow.ContextRoundTrip | sdk/py/src/switchboard/workflow.py:98-131 | a context written as a message with the five fields (ids as a three-integer list, three flags, an object cache) beside any other fields reads back as the same context, except that a fresh trigger's flags read as set |
| Workflow.MergeContext | sdk/py/src/switchboard/workflow.py:179-218 | a context naming a task needs a non-empty parallel step, and the first task with that id takes up the context's flags; the step's flags are then the conjunction of its tasks'; a context naming no task needs a sequential step, which takes up the flags |
| Workflow.InitState | sdk/py/src/switchboard/workflow.py:134-226 | an unknown run gets the next id, an empty state and the new run id in its context; a stored run resumes exactly when it has steps, its last step carries the context's step id, and the invocation is stale or merges into that step; otherwise the error is the empty-steps message, the step-id mismatch message, or the merge's own error; the context's cache entries override the stored ones; the last step becomes current; a stale invocation changes no step, and any other merges into it |
| Workflow.New | sdk/py/src/switchboard/workflow.py:55-85 | a built engine is in process with its counter at zero, `step_idx` at the last stored step (0 when there is none), `curr_step` on that step, and a context naming it |
| Workflow.AddStep | sdk/py/src/switchboard/workflow.py:229-261 | only when `step_idx` is at the last step does it append one step, numbered one past the context's step id, with flags clear; parallel tasks are numbered in order; `curr_step` becomes the step at `step_cnt`, and the context moves to it with flags clear and cache kept; nothing else changes |
| Workflow.NextStepId | sdk/py/src/switchboard/workflow.py:285-286 | a new step is numbered one past the context's step id; `Workflow.AddStep` and `Workflow.AddStepKeepsIdsConsecutive` state what that numbering gives |
| Workflow.NeedsRetry | sdk/py/src/switchboard/workflow.py:289-309 | without a failed completed attempt the answer is no and nothing changes; otherwise the step, or each task with the context's task id, spends one retry, and the answer is whether the budget read first was positive; only that step changes |
| Workflow.RetriesFollowBudget | sdk/py/src/switchboard/workflow.py:289-309 | of `k` failed attempts of the current sequential step in a row, each starting from the state the previous one left, exactly the first `retries` are retried, so a step with no budget is never retried |
| Workflow.IsWaiting | sdk/py/src/switchboard/workflow.py:312-324 | the engine waits exactly while the invocation's context has not reported completion; what waiting does is stated by `Workflow.DetermineStepExecution`, which then answers no and changes nothing |
| Workflow.DetermineStepExecution | sdk/py/src/switchboard/workflow.py:326-362 | while waiting it answers no and changes nothing; otherwise an unknown name is answered yes with the step added, exactly when adding it succeeds; a known name that is the current step gets exactly `_needs_retry`'s answer and state for that step; a known name that is not the current step is answered no with nothing changed |
| Workflow.DetermineKeepsNamesUnique | sdk/py/src/switchboard/workflow.py:326-362 | a step is appended only under a name the list does not hold yet, so unique step names stay unique, and unless the engine was waiting the name is present afterwards |
| Workflow.ReplayReachesCurrentStep | sdk/py/src/switchboard/workflow.py:396-408 | replaying the steps before `step_idx` only advances `step_cnt`, and stops at the current step with everything else untouched |
| Workflow.Next | sdk/py/src/switchboard/workflow.py:396-408 | `_next` advances `step_cnt` by one and changes nothing else |
| Workflow.ReplayOnlyCounts | sdk/py/src/switchboard/workflow.py:396-408 | `k` calls of `_next` advance `step_cnt` by `k` and change nothing else |
| Workflow.ReplayThenAdd | sdk/py/src/switchboard/workflow.py:229-261 | a resumed run that replays every stored step stands at the end of the list, where adding a step succeeds, makes the new step current under the given name, and moves the context to its id |
| Workflow.Done | sdk/py/src/switchboard/workflow.py:522-542 | closing needs a current step, turns an in-process run into a completed one and keeps any other status, writes the state under its name and run id, keeps every other stored state, and returns 200 |
| Workflow.AddStepKeepsIdsConsecutive | sdk/py/src/switchboard/workflow.py:229-286 | appending after the replayed steps keeps step ids consecutive and leaves the context naming the new last step, which is what the next invocation's step-id check needs |
| Workflow.FreshRunStartsAtStepZero | sdk/py/src/switchboard/workflow.py:141-146 | the first step of a new run gets id 0, and the context moves to the new run id and that step |
| Workflow.MergeKeepsFlags | sdk/py/src/switchboard/workflow.py:179-218 | merging a context never clears a flag of the step or of any of its tasks, and a parallel step still summarises its tasks |
| Workflow.ResumeKeepsFlags | sdk/py/src/switchboard/workflow.py:134-226 | resuming keeps every stored step's set flags and keeps parallel steps summarising their tasks |
| Workflow.DoneTwice | sdk/py/src/switchboard/workflow.py:522-542 | a second `done` changes neither the status nor the database |
| Tui.VerticalMovesStayInColumn | cli/src/tui/init.go:80-92 | up and down keep the cursor in the grid and in its column, and switch its row |
| Tui.HorizontalMovesStayInRow | cli/src/tui/init.go:94-106 | left and right keep the cursor in the grid and in its row, wrapping at the ends |
| Tui.MovesUndo | cli/src/tui/init.go:80-106 | up twice, or down twice, comes back, and left and right undo each other |
| Tui.UpIsDown | cli/src/tui/init.go:80-92 | the up and down branches compute the same row toggle for every cursor value |
| Tui.Update | cli/src/tui/init.go:61-131 | a window size sets the size, the box size (truncating division) and readiness; only `ctrl+c`/`q` quit; only enter/space with the cursor off the grid panic; enter opens the option under the cursor from the main view; escape returns to the main view; up/`k`, down/`j`, left/`h` and right/`l` replace the cursor by its `Up`, `Down`, `Left` and `Right` move and change nothing else; other messages change nothing |
| Tui.UpdateKeepsCursorInGrid | cli/src/tui/init.go:61-131 | from a cursor on the grid, every message is handled without panicking and leaves the cursor on the grid |
| Tui.RunNeverPanics | cli/src/tui/init.go:52-131 | from the initial model, or any model with the cursor on the grid, no sequence of messages panics, and the cursor stays on the grid |
| Tui.View | cli/src/tui/init.go:134-144 | before the first window size the loading screen is shown; then the main view, or the option view at the cursor, which panics off the grid |
| Tui.OptionViewFollowsCursor | cli/src/tui/init.go:101-144 | inside an option view the arrow keys still move the cursor, so the screen drawn changes while `currentView` still names the option that was opened |
| Tui.EnterThenEscape | cli/src/tui/init.go:110-125 | opening an option from the main view and escaping back restores the model exactly |

## Left out

- Reading and writing file bytes, file modes, `Stdout`/`Stderr` wiring and the processes' own effects on the filesystem: external tools are a `Launcher` oracle that decides only whether a command succeeded and what it printed.
- Deflate compression and the entries' order in the archive: an archive is its set of entries.
- ProjectRoot.FindProjectRoot: the working directory is a parameter; os.Getwd's error (utils.go:19-21, deployer.go:16-18) is not modelled. Go returns that error when, for instance, the working directory has been deleted. The same error path is therefore missing from `LoadConfig`, `PackageFuncs`, `DeployWorkflow` and `TeardownWorkflow`, which all start from the search.
- JSON decoding of `switchboard.json`: `json.Unmarshal` is the `decode` oracle; `loadConfig` does not check the language or cloud, and neither does the model.
- `json.loads` text parsing: `Workflow.GetContext` starts from the decoded value. JSON numbers are integers only; floats are not modelled.
- Workflow.GetContext: a context whose `ids` is not a list of three integers is refused with the ids message; Python checks only `len(ids) == 3`, so a three-character string would get further there and fail later.
- Assertion messages in workflow.py. An assertion without a message is given a fixed text (`EmptyStepsMsg`, `NotParallelMsg`, `NotSingleMsg`, `NoCurrentStepMsg`, and so on), where Python raises a bare `AssertionError`.
  `NotObjectMsg` is also a stand-in. When the decoded context is not a dict, `raw_context.keys()` (workflow.py:103-106) raises an `AttributeError` such as `'list' object has no attribute 'keys'`, and the model does not reproduce that text.
  Three asserts do carry messages: workflow.py:168, 235 and 306. `StepIdMismatchMsg`, `StepIdxMsg` and `NoTaskMsg` keep only their fixed opening words and drop the interpolated values. The message at workflow.py:306 is not an f-string, so Python's text literally contains `{step.tasks}` and `{self.context}`; the model does not reproduce those placeholders either.
- The database: the cloud data interfaces are empty stubs, so it is a map from (name, run id) to states plus one id counter that `_generate_id` increments; a counter kept per workflow name is not modelled.
- `call`, `parallel_call`, `_enqueue_execution`, `push_to_executor`, the singleton `__new__`/`_reset_singleton`, the module-level wrappers and logging: they enqueue work on the cloud provider's queue and keep a process-wide singleton, which are I/O.
- Workflow.AddStep: a new step's default retry budget is a parameter, because no schema defines one.
- The engine's record types follow how workflow.py uses them, not schemas.py and enums.py as written. The two disagree:
  - schemas.py:18-44 gives `Step` and `ParallelStep` no `retries` and `Step` no `step_name`;
  - its `State` has three fields `(steps, run_id, cache)`, yet workflow.py:147 builds `State(self.name, id, [], {})` with four;
  - enums.py defines no `StepType`, which workflow.py:7 imports.
  As written the module would fail on that import, and the call at workflow.py:147 would raise `TypeError`. The model gives `State` a name, gives steps a name and a retry budget, and has a `StepType` of call and parallel steps, since those are the fields and values the engine reads and writes.
- Workflow.Task: the tasks of a parallel step are Python `Step` objects that also carry the step's id and name; the model keeps only their key, task id, flags and retry budget, which is all the engine reads from them.
- The scaffolder (`copyFiles`, `copyDirectory`) and the cobra commands of cli/src/cmd: outside the packaging and deployment core.
- The goroutines that run `PackageFuncs`, `DeployWorkflow` and `TeardownWorkflow` concurrently with the consumer: the channel is modelled as the producer's event sequence.
- Rendering of the dashboard (`selectedStyle`, `defaultStyle`, views.go): `Tui.View` only says which screen is drawn.
- Tui.Update: enter and space also print `selected: <option>` to standard output with `fmt.Printf` (cli/src/tui/init.go:118) while the dashboard is running. That print is console I/O beside the returned model, so it is not modelled.
- The prototype under py/: superseded by the SDK.
- Packaging.PackageComponent: the partial contents of the scratch directory after a failed copy are not modelled (a failed copy returns the filesystem before it), and the walk's own I/O errors are not modelled either.
- SourceCopy.CopySource: the error text of a clash is a fixed message; Go reports the failing `mkdir`/`open` call.
- Provisioning.GetArn: it does not close the channel (its caller does), and its stderr passthrough is not modelled.
- Two Go files, one package: utils.go and deployer.go declare the same helpers and cannot build together. The shared helpers follow utils.go, and where deployer.go differs (installers, removal of the scratch directory) `Packaging.Variant` selects it.
