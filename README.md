# szmgmt deployment core in Dafny

A model of the core of `szmgmt`. This is a Ruby tool that deploys Solaris zones on the local host and over SSH on remote hosts. The model covers four parts:

- **Deployment routines** (`SZONESDeploymentRoutines`, module `Routines`, with the shared skeleton in `Transactions` and the names and paths in `Naming`). Every public `deploy_*` routine runs a `begin` block of external steps. Depending on the routine, these are:
  - exports of a VM spec to temporary files;
  - file copies;
  - SSH sessions;
  - a halt of the source zone;
  - a ZFS archive export and fetch;
  - the forced removal of the new zone;
  - the provisioning subroutine.

  Then it runs the `rescue SZONESError` / `else` / `ensure` clauses:
  - roll back on failure;
  - boot the new zone on success;
  - boot the source zone again when the call halted it;
  - remove the temporary files;
  - close the sessions that were opened.

  The external world is a `World` value, and each step takes its outcome from it. A routine returns what the call ends with (a `status`, or an exception that escapes), the event trace of the steps it ran, and, where the routine registers files itself, what it handed to its cleaner. `Transactions.Concluded` states the guarantees every routine ends with:
  - `cleanup_temporary!` runs once;
  - `cleanup_on_failure!` runs exactly when a `SZONESError` was rescued, and before `cleanup_temporary!`;
  - the new zone boots only after a clean block, only when asked to, and then once;
  - the source zone is rebooted exactly when the halt was asked for, returned, and did not report "already halted";
  - each session is closed once, in order;
  - the result is `true` exactly when nothing raised.

  `Transactions.EndsBlock` states that after the `begin` block the trace holds only these concluding events and the sessions closed in `ensure`; with the counts above, nothing else runs after the block and nothing runs twice. When the compensating reboot itself raises, Ruby leaves `ensure` there; the model keeps that. `Transactions.RemovesFirst` states that the forced removal precedes every installation and that no removal happens without `force`.
- **Command-error classifiers** (`SZONESErrorHandlers`, module `ErrorHandlers`). These are pure functions of `stderr` and the exit code. Regex matching of literal patterns is substring containment.
- **`SZONES` configuration** (module `Szones`, with the shared `configure` in `ConfigStore`). This covers `configure`, `init`, which rewrites three paths as `root_dir/module_name/leaf`, and `init_datasets`, an ordered check-then-create loop.
- **`SZMGMT` configuration** (module `Szmgmt`). This covers `root` (dirname, split on `/`, drop the last field, join) and the defaults with `root_dir = File.join(root, '/etc')`. Ruby's `File.join`, `File.dirname`, `split('/')` and `join('/')` are in `Paths`, with Ruby's own rules. `File.join` drops the trailing separators of the left part only when the right part starts with `/`, and adds one only when there is none.

Some behaviour of the routines is easy to miss when reading them:
- exceptions other than `SZONESError` escape the routines;
- an exception from an export made before the `begin` block, from the boot in `else`, or from the compensating reboot escapes too;
- "already halted" is read from the `stderr` of a halt that returned;
- the remote routines (from files and from a VM spec) tell the cleaner to remove, on the destination host, the paths the files have on this host;
- the remote routines boot the new zone with a command run on this host, not over the session to the destination host;
- `deploy_rzone_from_files` sends the profile to its own path instead of its destination name;
- the archive routines pass the archive paths returned on one host directly to the next step.

Where a routine does something its authors evidently did not intend, the model has the routine as written and, beside it, an `Intended…` or plain variant with the evident intent; "## Findings" pairs them.

## Model

| member | source | states |
|---|---|---|
| Paths.StripTrailingSeps | lib/szmgmt/szmgmt.rb:8 | the result is a prefix of the input with no trailing separator, and only separators were dropped |
| Paths.JoinStep | lib/szmgmt/szmgmt.rb:8 | one `File.join` step keeps the new part whole, and the boundary has a separator exactly when the part does not start with one |
| Paths.Join | lib/szmgmt/szones/szones.rb:35-37 | `File.join` ends with its last part |
| Paths.JoinPlainParts | lib/szmgmt/szones/szones.rb:35-37 | two plain parts are joined with exactly one `/` |
| Paths.JoinIntoDir | lib/szmgmt/szones/szones_deployment_routines.rb:96-109 | a directory ending in `/` and a plain name are concatenated without adding a separator |
| Paths.JoinAbsolutePart | lib/szmgmt/szmgmt.rb:8 | joining a part that starts with `/` drops the trailing separators of the left side |
| Paths.JoinInjective | lib/szmgmt/szones/szones_deployment_routines.rb:109-120 | two names joined to the same directory give the same path only when the names are equal |
| Paths.JoinThreeParts | lib/szmgmt/szones/szones.rb:35-43 | three plain parts are joined as `a/b/c` |
| Paths.Fields | lib/szmgmt/szmgmt.rb:3 | the `/`-separated fields of a string: at least one, none holding a separator |
| Paths.UnfieldsFields | lib/szmgmt/szmgmt.rb:3 | joining the fields of a string with `/` gives the string back |
| Paths.FieldsUnfields | lib/szmgmt/szmgmt.rb:3 | splitting a `/`-join of separator-free parts gives the parts back |
| Paths.Split | lib/szmgmt/szmgmt.rb:3 | `split('/')` is the fields with the trailing empty fields dropped, and the last field kept is not empty |
| Paths.LastComponent | lib/szmgmt/szones/szones_deployment_routines.rb:204 | `split('/').last` holds no separator, and when not empty it is the last field kept by `split` |
| Paths.LastComponentOfPlainName | lib/szmgmt/szones/szones_deployment_routines.rb:204 | a plain file name is its own last component |
| Paths.JoinSnoc | lib/szmgmt/szones/szones.rb:35-37 | `File.join` of one more part is one more join step on the join of the others |
| Paths.UnfieldsPrefix | lib/szmgmt/szmgmt.rb:3 | joining the first fields of a string, when more follow, gives a prefix of it that a separator ends |
| Paths.CollapseLeadingSeps | lib/szmgmt/szmgmt.rb:3 | a suffix of the input, not empty for a non-empty input, that does not start with `//` |
| Paths.CollapsedDir | lib/szmgmt/szmgmt.rb:3 | a directory without trailing separators keeps none once its leading separators are collapsed |
| Paths.Dirname | lib/szmgmt/szmgmt.rb:3 | `File.dirname` is never empty, never starts with `//`, and ends with a separator only when it is `/` |
| Paths.DirnameCollapsesLeadingSeps | lib/szmgmt/szmgmt.rb:3 | several leading separators collapse to one: the directory of `//a/b` is `/a` |
| Paths.DirnameOfChild | lib/szmgmt/szmgmt.rb:3 | the directory of `head/leaf` is `head`, with its leading separators collapsed to one |
| ErrorHandlers.ContainsIffOccurs | lib/szmgmt/szones/szones_error_handlers.rb:7 | the pattern test holds exactly when the literal pattern occurs at some index of `stderr` |
| ErrorHandlers.ZonecfgHandler | lib/szmgmt/szones/szones_error_handlers.rb:4-12 | raises exactly when the exit code is positive and `stderr` holds "No such zone configured", and then raises the no-such-zone error carrying `stderr` |
| ErrorHandlers.ZfsHandler | lib/szmgmt/szones/szones_error_handlers.rb:14-24 | with a positive exit code, a missing filesystem is reported first, and a missing file or directory otherwise; it raises nothing exactly when the exit code is not positive or neither pattern occurs |
| ErrorHandlers.BashHandler | lib/szmgmt/szones/szones_error_handlers.rb:26-34 | as written: raises exactly when the exit code is positive and "Not a directory" occurs, and what it raises is the `NameError` of the misspelt namespace |
| ErrorHandlers.IntendedBashHandler | lib/szmgmt/szones/szones_error_handlers.rb:26-34 | same condition; raises the not-a-directory error carrying `stderr` |
| ErrorHandlers.BasicHandler | lib/szmgmt/szones/szones_error_handlers.rb:36-40 | as written: raises exactly when the exit code is positive, and what it raises is the `ArgumentError` of a two-argument call to a three-parameter constructor |
| ErrorHandlers.IntendedBasicHandler | lib/szmgmt/szones/szones_error_handlers.rb:36-40 | raises exactly when the exit code is positive, a command failure carrying command, `stderr` and exit code |
| ErrorHandlers.NoErrorWithoutFailureExit | lib/szmgmt/szones/szones_error_handlers.rb:4-40 | no handler raises for an exit code that is not positive, whatever `stderr` says |
| ErrorHandlers.HandlersIgnoreStdout | lib/szmgmt/szones/szones_error_handlers.rb:4-40 | every handler, as written and as intended, gives the same answer for any two `stdout` texts |
| ErrorHandlers.ZfsFilesystemFirst | lib/szmgmt/szones/szones_error_handlers.rb:17-20 | when both storage messages occur, the missing-filesystem error wins |
| ErrorHandlers.ZfsMissingFilesystemMessage | lib/szmgmt/szones/szones_error_handlers.rb:17-18 | a `zfs` message "filesystem does not exist: <dataset>" with exit code 1 raises the missing-filesystem error |
| ErrorHandlers.ZfsPermissionDeniedExample | lib/szmgmt/szones/szones_error_handlers.rb:16-22 | a message matching neither storage pattern passes the storage handler |
| ErrorHandlers.BashHandlerRaisesNameError | lib/szmgmt/szones/szones_error_handlers.rb:30 | a concrete "Not a directory" failure makes the as-written handler raise an exception the routines do not rescue |
| ErrorHandlers.BasicHandlerRaisesArgumentError | lib/szmgmt/szones/szones_error_handlers.rb:38 | a concrete failing command makes the as-written handler raise an exception the routines do not rescue |
| ErrorHandlers.IntendedHandlersRaiseRescuable | lib/szmgmt/szones/szones_error_handlers.rb:4-40 | with the intended namespace and arity, everything a handler raises is a rescuable `SZONESError` whose message is `stderr` |
| ConfigStore.Lookup | lib/szmgmt/szones/szones.rb:57-59 | a key missing from the hash reads as `nil` |
| ConfigStore.LastValue | lib/szmgmt/szmgmt.rb:16-17 | none exactly when no entry of `opts` names the key; otherwise the value of an entry naming it after which no entry names it |
| ConfigStore.Configured | lib/szmgmt/szmgmt.rb:15-19 | `configure` keeps every key and adds only valid ones |
| ConfigStore.ConfiguredEntry | lib/szmgmt/szmgmt.rb:15-19 | after `configure`, each key holds the value of the last entry naming it when the key is valid, and its old value otherwise; a key is present exactly when it was present or was validly configured |
| ConfigStore.ConfiguredKeys | lib/szmgmt/szones/szones.rb:13-19 | when the hash holds exactly the valid keys, `configure` neither adds nor drops a key |
| ConfigStore.ConfiguredLeavesOthers | lib/szmgmt/szones/szones.rb:17 | keys that no entry names (so every key, for empty `opts`), and invalid keys, keep their values |
| ConfigStore.ConfiguredIdempotent | lib/szmgmt/szones/szones.rb:15-19 | applying the same `opts` twice is the same as applying them once |
| ConfigStore.Store.constructor | lib/szmgmt/szones/szones.rb:3-13 | the hash starts as the defaults and the valid keys are the defaults' keys |
| ConfigStore.Store.Configuration | lib/szmgmt/szones/szones.rb:26-28 | the current hash, holding exactly the valid keys |
| ConfigStore.Store.Configure | lib/szmgmt/szones/szones.rb:15-19 | the loop leaves the hash as `Configured` of the old hash, and keeps the key set |
| Szmgmt.AllButLast | lib/szmgmt/szmgmt.rb:3 | `[0...-1]`: the list is the result plus its last element |
| Szmgmt.Root | lib/szmgmt/szmgmt.rb:2-4 | the root is a prefix of the source directory's parent, and when not empty a separator follows it there |
| Szmgmt.KeptFieldsPrefix | lib/szmgmt/szmgmt.rb:3 | dropping the last field of a path leaves a prefix of it that a separator ends |
| Szmgmt.RootOfSourceDir | lib/szmgmt/szmgmt.rb:2-4 | for a source directory `base/lib/leaf`, the root is `base`: dirname, then its last field dropped |
| Szmgmt.Defaults | lib/szmgmt/szmgmt.rb:6-13 | the defaults hold exactly `app_name`, `root_dir`, `log_dir` and `vm_modules`, the keys `configure` accepts |
| Szmgmt.DefaultsRootDir | lib/szmgmt/szmgmt.rb:8 | the default `root_dir` is the root, with its trailing separators dropped, followed by `/etc` |
| Szmgmt.DefaultRootDir | lib/szmgmt/szmgmt.rb:2-8 | an installation at `base/lib/szmgmt` has the default `root_dir` `base/etc` |
| Szmgmt.RootDirUnder | lib/szmgmt/szmgmt.rb:8 | with the root known and without a trailing separator, the default `root_dir` is `root/etc` |
| Szmgmt.ConfigureKeepsKeys | lib/szmgmt/szmgmt.rb:13-19 | `configure` on the defaults keeps exactly the four keys |
| Szmgmt.StringAndSymbolAlike | lib/szmgmt/szmgmt.rb:17 | a string key and a symbol key of the same spelling configure the same entry, and a valid one takes the value |
| Szones.Defaults | lib/szmgmt/szones/szones.rb:3-11 | the default hash holds exactly the seven keys |
| Szones.JoinPart | lib/szmgmt/szones/szones.rb:35-37 | a string or an array of strings is a `File.join` argument, an array counting as the join of its items; any other value is not |
| Szones.JoinValues | lib/szmgmt/szones/szones.rb:35-37 | the join succeeds exactly when each of the three values is a string or an array of strings, and is then the `File.join` of their parts |
| Szones.JoinValuesFlattensRoot | lib/szmgmt/szones/szones.rb:35-37 | a `root_dir` given as a non-empty array is flattened into the join, as if its items were passed one by one |
| Szones.Init | lib/szmgmt/szones/szones.rb:32-46 | rewrites the schema path, then the manifest template path, then the profile template directory, as `File.join(root_dir, module_name, leaf)`; it changes no other entry, stops at the first join that raises, and reports whether all three were written |
| Szones.InitPathShape | lib/szmgmt/szones/szones.rb:35-43 | with plain components the location is `root/module/leaf` |
| Szones.DatasetKeysNeverConfigured | lib/szmgmt/szones/szones.rb:57-59 | the dataset keys are not valid keys, so after any `configure` they read as `nil` |
| Szones.DatasetCalls | lib/szmgmt/szones/szones.rb:61-68 | the calls number at least one and at most two per dataset (a check, and a create only after it) |
| Szones.DatasetCallsCheckAll | lib/szmgmt/szones/szones.rb:61-62 | every dataset is checked, once each, in visiting order |
| Szones.DatasetCallsCreateAfterMissing | lib/szmgmt/szones/szones.rb:61-68 | a create call follows exactly the checks that found the dataset missing, and names the same dataset |
| Szones.InitDatasets | lib/szmgmt/szones/szones.rb:54-70 | the loop makes the calls `DatasetCalls` gives for the root, template and default datasets in that order |
| Naming.TemplateName | lib/szmgmt/szones/szones_deployment_routines.rb:78 | the name is `template_` followed by the given name |
| Naming.TemplateNameInjective | lib/szmgmt/szones/szones_deployment_routines.rb:168 | different template names give different zone names |
| Naming.BaseName | lib/szmgmt/szones/szones_deployment_routines.rb:104 | `zone_randomid`: the zone name, `_`, the random id |
| Naming.ExportPath | lib/szmgmt/szones/szones_deployment_routines.rb:109 | an exported file's path ends with the base name and its suffix |
| Naming.ExportPathsDistinct | lib/szmgmt/szones/szones_deployment_routines.rb:109-120 | the zonecfg, manifest and profile of one deployment go to three different files |
| Naming.ExportPathInDefaultDir | lib/szmgmt/szones/szones_deployment_routines.rb:96-109 | with the default `/var/tmp/`, an exported file sits directly inside it |
| Naming.TmpDir | lib/szmgmt/szones/szones_deployment_routines.rb:96 | the given temporary directory, or the default when none is given |
| Naming.DestName | lib/szmgmt/szones/szones_deployment_routines.rb:204 | a copy's destination ends with `<random id>_<file name>` |
| Naming.DestNameInDefaultDir | lib/szmgmt/szones/szones_deployment_routines.rb:199-204 | in the default directory the destination is `/var/tmp/<random id>_<file name>` |
| Naming.ZonePath | lib/szmgmt/szones/szones_deployment_routines.rb:420-422 | a zonepath exists exactly when the option was given, and it ends with the zone name |
| Naming.ZonePathPlain | lib/szmgmt/szones/szones_deployment_routines.rb:421 | a plain zone name under a zonepath is `zonepath/zone` |
| Naming.CopyFlag | lib/szmgmt/szones/szones_deployment_routines.rb:188 | `opts[:copy] \|\| true` is true whatever the caller passes |
| Transactions.HaltStep | lib/szmgmt/szones/szones_deployment_routines.rb:434 | the halt fails as a step exactly when the command raised |
| Transactions.ArchiveStep | lib/szmgmt/szones/szones_deployment_routines.rb:546-548 | the archive export fails as a step exactly when it raised |
| Transactions.Run | lib/szmgmt/szones/szones_deployment_routines.rb:38-48 | the steps that run are a prefix of the block |
| Transactions.Failure | lib/szmgmt/szones/szones_deployment_routines.rb:38-49 | the block raises nothing exactly when every step returns |
| Transactions.RunOnlyAfterSuccess | lib/szmgmt/szones/szones_deployment_routines.rb:38-48 | a step runs exactly when every step before it returned |
| Transactions.FailureIsLastRun | lib/szmgmt/szones/szones_deployment_routines.rb:38-49 | a block that raises, raises the exception of the last step that ran |
| Transactions.RunSnoc | lib/szmgmt/szones/szones_deployment_routines.rb:38-48 | one more statement runs, and can raise, only when nothing raised before it |
| Transactions.RunAfterFailure | lib/szmgmt/szones/szones_deployment_routines.rb:38-48 | once a step has raised, the steps after it add nothing |
| Transactions.Completed | lib/szmgmt/szones/szones_deployment_routines.rb:109-122 | the steps that returned are those before the first step that raised |
| Transactions.Perform | lib/szmgmt/szones/szones_deployment_routines.rb:38-48 | one statement of a block moves the run and its exception to those of the longer block |
| Transactions.RunRemovesFirst | lib/szmgmt/szones/szones_deployment_routines.rb:438-445 | a block ending in the forced removal and the installation removes the zone before it installs it, and removes only when forced |
| Transactions.RemovesFirstKept | lib/szmgmt/szones/szones_deployment_routines.rb:446-457 | the concluding clauses do not disturb that order |
| Transactions.RemovesFirstOrder | lib/szmgmt/szones/szones_deployment_routines.rb:438-445 | what `RemovesFirst` means: without `force` nothing is removed, and with it each installation has the removal at an earlier position |
| Transactions.Status | lib/szmgmt/szones/szones_deployment_routines.rb:446-458 | the call returns true exactly when the block, the boot and the reboot all returned, and returns false exactly when a `SZONESError` was rescued and the reboot returned |
| Transactions.Handler | lib/szmgmt/szones/szones_deployment_routines.rb:49-60 | `rescue` rolls back exactly when a `SZONESError` was rescued; `else` boots exactly the requested zone after a clean block |
| Transactions.Conclude | lib/szmgmt/szones/szones_deployment_routines.rb:500-512 | the trace is the block followed only by concluding events and the given closes (`EndsBlock`), and satisfies `Concluded` |
| Transactions.EndsBlockCloses | lib/szmgmt/szones/szones_deployment_routines.rb:670-671 | when the begin block closes no session, every close in the trace is one of the closes of `ensure` |
| Transactions.ConcludedOnSuccess | lib/szmgmt/szones/szones_deployment_routines.rb:49-64 | under `Concluded`, a call that returned `true` cleaned up its temporary files, did not roll back, ran the requested boot and closed every session |
| Transactions.ConcludeWhenRebootRaised | lib/szmgmt/szones/szones_deployment_routines.rb:508-511 | when the compensating reboot raises, that exception escapes, and neither `cleanup_temporary!` nor a close runs |
| Transactions.ConcludeToEnd | lib/szmgmt/szones/szones_deployment_routines.rb:508-511 | otherwise `ensure` runs to its end and the result is the status |
| Transactions.ConcludeTail | lib/szmgmt/szones/szones_deployment_routines.rb:510-511 | `cleanup_temporary!` then the closes: each once, in order, after any rollback |
| Transactions.Registrations | lib/szmgmt/szones/szones_deployment_routines.rb:236-238 | one registration per path, in order, all on the same host |
| Transactions.Cleaner.constructor | lib/szmgmt/szones/szones_deployment_routines.rb:32 | a new cleaner holds no files |
| Transactions.Cleaner.AddTmpFile | lib/szmgmt/szones/szones_deployment_routines.rb:111 | registers one more file after the earlier ones |
| Routines.RebootOf | lib/szmgmt/szones/szones_deployment_routines.rb:455 | a reboot of the source zone is owed exactly when the halt was asked for, reached and returned, and did not report "already halted" |
| Routines.HaltIfAsked | lib/szmgmt/szones/szones_deployment_routines.rb:432-437 | the halt only prepares: it neither removes nor installs a zone |
| Routines.BlockFacts | lib/szmgmt/szones/szones_deployment_routines.rb:438-445 | a block of preparing steps, the forced removal and the installation removes first, whatever the concluding clauses add |
| Routines.FinishBlock | lib/szmgmt/szones/szones_deployment_routines.rb:38-60 | after the preparing steps, the forced removal and the installation run as one block; after it the trace holds only concluding events and the given closes (`EndsBlock`), every close in the trace is one of those, the trace ends as `Concluded` says, and the removal comes first |
| Routines.DeployZoneFromFiles | lib/szmgmt/szones/szones_deployment_routines.rb:22-64 | the trace starts with the forced removal and the installation from the given files, and ends as `Concluded` says with the local boot and no reboot; the zone is removed first; after the begin block only concluding events and the listed closes follow (`EndsBlock`) |
| Routines.DeployTemplateFromFiles | lib/szmgmt/szones/szones_deployment_routines.rb:77-80 | the same routine for the zone `template_<name>`; after the begin block only concluding events and the listed closes follow (`EndsBlock`) |
| Routines.DeployZoneFromZone | lib/szmgmt/szones/szones_deployment_routines.rb:413-459 | halt when asked, then the forced removal, then the clone under the joined zonepath; the source zone is rebooted exactly when the halt is owed one; after the begin block only concluding events and the listed closes follow (`EndsBlock`) |
| Routines.CompletedWritesPrefix | lib/szmgmt/szones/szones_deployment_routines.rb:109-122 | the files written by the completed exports are a prefix of the export files |
| Routines.ExportFilesLayout | lib/szmgmt/szones/szones_deployment_routines.rb:107-122 | the zonecfg export first, the manifest's second and the profile's last, each only when the VM spec has it |
| Routines.ExportStepsWriteFiles | lib/szmgmt/szones/szones_deployment_routines.rb:107-122 | the export steps are index-aligned with the export files, each writing its own file |
| Routines.ExportFilesDistinct | lib/szmgmt/szones/szones_deployment_routines.rb:109-122 | the files of one VM spec are pairwise different |
| Routines.ExportsWritePrefix | lib/szmgmt/szones/szones_deployment_routines.rb:107-123 | the exports write a prefix of zonecfg, manifest, profile, in that order |
| Routines.ExportVmSpec | lib/szmgmt/szones/szones_deployment_routines.rb:107-123 | the exports run until one raises, and the cleaner gains exactly the files whose export returned, in order |
| Routines.ExportOne | lib/szmgmt/szones/szones_deployment_routines.rb:109-111 | one export runs only after clean exports, and its file is registered exactly when it returned |
| Routines.ExportRegisters | lib/szmgmt/szones/szones_deployment_routines.rb:110-111 | the registrations gain the new file exactly when nothing has raised up to its export |
| Routines.DeployZoneFromVmSpec | lib/szmgmt/szones/szones_deployment_routines.rb:92-155 | exported files registered as they return; an export that raises escapes with nothing concluded; otherwise the installation from the exported files ends as `Concluded` says; after the begin block only concluding events and the listed closes follow (`EndsBlock`) |
| Routines.DeployTemplateFromVmSpec | lib/szmgmt/szones/szones_deployment_routines.rb:167-170 | the same routine for the zone `template_<name>`; after the begin block only concluding events and the listed closes follow (`EndsBlock`) |
| Routines.SessionBlockFacts | lib/szmgmt/szones/szones_deployment_routines.rb:244-247 | the close at the end of a session block keeps the removal order |
| Routines.CopySources | lib/szmgmt/szones/szones_deployment_routines.rb:204-218 | `files_to_copy`: the zonecfg first, then the manifest and the profile last, each only when given |
| Routines.CopyDestinationsAsWritten | lib/szmgmt/szones/szones_deployment_routines.rb:204-218 | `dest_files` as written: index-aligned with the files to copy, each the file's destination name, except that a given profile keeps its own path |
| Routines.CopyDestinations | lib/szmgmt/szones/szones_deployment_routines.rb:204-218 | `dest_files` as intended (the corrected line 216): index-aligned with the files to copy, each the destination name of its file |
| Routines.InstallationReadsCopies | lib/szmgmt/szones/szones_deployment_routines.rb:204-218 | every file the remote installation reads is a destination the copies write |
| Routines.ProfileNotCopiedAsWritten | lib/szmgmt/szones/szones_deployment_routines.rb:216 | as written, a plain-named profile is read at `/var/tmp/<random id>_<name>`, but no copy writes it there |
| Routines.CopySteps | lib/szmgmt/szones/szones_deployment_routines.rb:230-232 | one copy command per file |
| Routines.CopyNotRegisteredAsWritten | lib/szmgmt/szones/szones_deployment_routines.rb:236-238 | as written, the copy of a plain-named zonecfg is not what the cleaner is told to remove on the host |
| Routines.RemoteBootMissesZoneAsWritten | lib/szmgmt/szones/szones_deployment_routines.rb:254-258 | a routine that concludes with the boot on this host never boots the zone on the destination host, and one that returned `true` booted a zone of that name on this host |
| Routines.DeployRZoneFromFiles | lib/szmgmt/szones/szones_deployment_routines.rb:185-265 | as written: copies each file to its `dest_files` entry as written (the profile to its own path), registers the source paths with the host exactly when all copies returned, then removes when forced and installs from the destination names (`RemoteFilesSource`) over a session closed at the end of its block; the trace ends as `Concluded` says with the boot on this host, so the zone on the host is never booted; after the begin block only concluding events and the listed closes follow (`EndsBlock`) |
| Routines.IntendedDeployRZoneFromFiles | lib/szmgmt/szones/szones_deployment_routines.rb:185-265 | as intended: every file goes to its own destination name, those copies are registered with the host, and the boot runs on the host; otherwise as above; after the begin block only concluding events and the listed closes follow (`EndsBlock`) |
| Routines.RFilesRoutine | lib/szmgmt/szones/szones_deployment_routines.rb:213-263 | the shared body for given destinations, registered paths and boot location: copies, registration when all returned, then the session part, installing from `RemoteFilesSource`: the destination name of the zonecfg and, when given, of the manifest and profile (`dest_zonecfg` and the `routine_options[:path_to_*]` entries, lines 204, 211, 217, 246); after the begin block only concluding events and the listed closes follow (`EndsBlock`) |
| Routines.DeployOverSession | lib/szmgmt/szones/szones_deployment_routines.rb:243-263 | the session opens with a block on the host; inside it the forced removal precedes the installation; it is closed as the block ends; after the block, closes included, only concluding events follow (`EndsBlock` with no closes), and the trace ends as `Concluded` says with the given boot |
| Routines.CopyFiles | lib/szmgmt/szones/szones_deployment_routines.rb:230-232 | the loop runs the copy commands in order until one raises |
| Routines.RegisterCopies | lib/szmgmt/szones/szones_deployment_routines.rb:236-238 | the loop registers each destination with the host, in order |
| Routines.PerformHaltIfAsked | lib/szmgmt/szones/szones_deployment_routines.rb:432-437 | runs the halt only when asked to |
| Routines.PerformRemoveAndProvision | lib/szmgmt/szones/szones_deployment_routines.rb:438-445 | runs the forced removal and then the installation |
| Routines.PreparingOnly | lib/szmgmt/szones/szones_deployment_routines.rb:107-123 | steps before the block remove and install nothing |
| Routines.DeployRZoneFromVmSpec | lib/szmgmt/szones/szones_deployment_routines.rb:297-389 | as written: the exports as above, one copy command of all the files to the host, their registration there when it returned, then the session as for files; an export that raises escapes with nothing concluded; the boot runs on this host, so the zone on the host is never booted; after the begin block only concluding events and the listed closes follow (`EndsBlock`) |
| Routines.IntendedDeployRZoneFromVmSpec | lib/szmgmt/szones/szones_deployment_routines.rb:297-389 | as intended: the same, with the boot on the host where the zone was installed; after the begin block only concluding events and the listed closes follow (`EndsBlock`) |
| Routines.RVmSpecRoutine | lib/szmgmt/szones/szones_deployment_routines.rb:297-389 | the shared body for a given boot location: staging, then the session unless an export raised; after the begin block only concluding events and the listed closes follow (`EndsBlock`) |
| Routines.RVmSpecSession | lib/szmgmt/szones/szones_deployment_routines.rb:358-387 | the session and concluding part of the remote VM spec routine; after the begin block only concluding events and the listed closes follow (`EndsBlock`) |
| Routines.StageVmSpec | lib/szmgmt/szones/szones_deployment_routines.rb:307-354 | the exports with their local registrations, then the copy and its registrations on the host exactly when it returned |
| Routines.CopyAndRegister | lib/szmgmt/szones/szones_deployment_routines.rb:345-354 | one copy command, and the registrations on the host exactly when it returned |
| Routines.DeployRTemplateFromVmSpec | lib/szmgmt/szones/szones_deployment_routines.rb:404-407 | as intended, with a destination host parameter that the Ruby signature lacks: the remote VM spec routine, as written, for the zone `template_<name>` on that host, with its boot on this host; after the begin block only concluding events and the listed closes follow (`EndsBlock`) |
| Routines.RTemplateFromVmSpecAsWritten | lib/szmgmt/szones/szones_deployment_routines.rb:406 | as written, the call recurses until the stack overflows |
| Routines.RTemplateFromFilesAsWritten | lib/szmgmt/szones/szones_deployment_routines.rb:282 | as written, an exception that is not rescued escapes before anything runs or is registered |
| Routines.DeployRTemplateFromFiles | lib/szmgmt/szones/szones_deployment_routines.rb:280-283 | as intended, with a destination host parameter that the Ruby signature lacks: the remote files routine, as written, for the zone `template_<name>` on that host, with its copies, registrations and boot as written; after the begin block only concluding events and the listed closes follow (`EndsBlock`) |
| Routines.RDeployZoneFromZone | lib/szmgmt/szones/szones_deployment_routines.rb:465-514 | session, halt, forced removal and clone on the host; the reboot is owed only when the session opened and the halt returned; the session is closed exactly when it opened, and every close in the trace is of that session; after the begin block only concluding events and the listed closes follow (`EndsBlock`) |
| Routines.DeployZoneFromRZone | lib/szmgmt/szones/szones_deployment_routines.rb:520-568 | session to the source host, halt, archive export, fetch, local forced removal and installation from the archive; the reboot runs over the session; the session is closed exactly when it opened, and every close in the trace is of that session; installs from `ArchiveSource`: the archive and zonecfg the export returned, with the zonepath the raw `:zonepath` option, because the later `.merge(opts)` overrides the joined one (line 552); after the begin block only concluding events and the listed closes follow (`EndsBlock`) |
| Routines.DeployRZoneFromZone | lib/szmgmt/szones/szones_deployment_routines.rb:574-619 | local halt, archive export to the host, session, forced removal and installation there; the local reboot is owed exactly when the halt is; the session is closed exactly when it opened, and every close in the trace is of that session; installs from `ArchiveSource`: the archive and zonecfg the export returned, with the zonepath the raw `:zonepath` option, because the later `.merge(opts)` overrides the joined one (line 603); after the begin block only concluding events and the listed closes follow (`EndsBlock`) |
| Routines.ClosingBothSides | lib/szmgmt/szones/szones_deployment_routines.rb:670-671 | the source and destination closes are distinct session closes |
| Routines.DeployRZoneFromRZone | lib/szmgmt/szones/szones_deployment_routines.rb:625-674 | both sessions, the halt on the source host, the archive export to the destination, removal and installation there; each opened session is closed, the source one first (`RToRZoneCloses`, lines 670-671), and every close in the trace is of one of the two sessions; installs from `ArchiveSource`: the archive and zonecfg the export returned, with the zonepath the raw `:zonepath` option, because the later `.merge(opts)` overrides the joined one (line 657); after the begin block only concluding events and the listed closes follow (`EndsBlock`) |
| Routines.ReadsOnlyAfterExport | lib/szmgmt/szones/szones_deployment_routines.rb:546-552 | a step reading the archive runs only when the export before it returned |
| Routines.FromRZoneReadsExportedArchive | lib/szmgmt/szones/szones_deployment_routines.rb:546-552 | the fetch and the installation read archive paths only after the export returned them |
| Routines.ToRZoneReadsExportedArchive | lib/szmgmt/szones/szones_deployment_routines.rb:597-604 | the installation reads archive paths only after the export returned them |
| Routines.RToRZoneReadsExportedArchive | lib/szmgmt/szones/szones_deployment_routines.rb:650-658 | the installation reads archive paths only after the export returned them |

## Left out

- Logging, and the messages of the exceptions beyond `stderr`: these are output only.
- `configure_with`: it only loads a JSON file and then calls `configure`. The JSON loader is not part of this model.
- `SZMGMT.logger`: the logger and its level are not part of this model.
- `decompose_vm_spec`, lib/szmgmt/szones/szones_deployment_routines.rb:4-10: the VM spec parser is not part of this model. Which parts the spec holds is given by the `World`.
- The internals of the deployment subroutines, the basic routines and commands, and the cleaner's cleanup methods: they are not part of this model. The file registrations they make are therefore missing from `registered`. The clone and archive routines register nothing themselves, so they return no registrations.
- `transaction_id` and `random_id`: the random id is a parameter, and the transaction id appears only in log lines.
- `Net::SSH`: the model keeps the order and whether each session opened and closed. Closing a session is taken to succeed.
- The dataset manager: only the existence answers are modelled, as `present`, and the result of a create call is only logged.
- `Szmgmt.RootOfSourceDir`, `Szmgmt.DefaultRootDir`: proved only for a base that is not `/` and does not start with `//`; for those, the collapsed leading separators change the fields (`//lib/szmgmt` has the root `""`). `Szmgmt.Root` and `Paths.Dirname` themselves cover every directory.
- The copy option: the copy always runs, because `opts[:copy] || true` is always true (`Naming.CopyFlag`).
- `Routines.DeployZoneFromRZone`: the archive routines pass `opts[:zonepath]` as given. The later `.merge(opts)` overrides the joined zonepath; the model keeps that. It also installs from the archive paths the export returned on the source host, as written. The name the fetch gives the files on the local host comes from a subroutine that is not part of this model.
- `Routines.DeployRZoneFromRZone`: whether the archive export sends the archive to the destination directly or through this host is decided inside the subroutine, which is not part of this model.
- Exceptions from concluding steps other than the reboot and the boot are not modelled: `cleanup_on_failure!`, `cleanup_temporary!` and `close` are taken to return.
- `Szones.Init`: the `global_configuration` argument is accepted and not used, as in the source. It reads `root_dir` from the global store.

## Findings

| source | as written | input that shows it | evidently intended | confidence | as-written member | corrected member |
|---|---|---|---|---|---|---|
| lib/szmgmt/szones/szones_error_handlers.rb:30 | raises through the undefined `Exception::` namespace | exit code 2 with `stderr` "ls: /a: Not a directory" gives a `NameError` that no routine rescues | raise the not-a-directory `SZONESError` of `Exceptions::` | high, not executed | ErrorHandlers.BashHandlerRaisesNameError | ErrorHandlers.IntendedBashHandler |
| lib/szmgmt/szones/szones_error_handlers.rb:38 | calls the three-parameter `CommandFailureError` constructor with two arguments | exit code 1 gives an `ArgumentError` that no routine rescues | pass `command, stderr, exit_code` | high, not executed | ErrorHandlers.BasicHandlerRaisesArgumentError | ErrorHandlers.IntendedBasicHandler |
| lib/szmgmt/szones/szones_deployment_routines.rb:216 | pushes the profile's own path onto `dest_files` | zonecfg `z.cfg`, profile `p.xml`, default tmp dir: the profile is copied to `p.xml` on the host, while the installation reads `/var/tmp/<id>_p.xml` | push `dest_profile` | high, not executed | Routines.ProfileNotCopiedAsWritten | Routines.IntendedDeployRZoneFromFiles |
| lib/szmgmt/szones/szones_deployment_routines.rb:237 | registers the local source paths under the destination host | zonecfg `z.cfg`: the copy lands at `/var/tmp/<id>_z.cfg` on the host, but the cleaner is told to remove `z.cfg` there | register the destination names on the host | medium, not executed | Routines.CopyNotRegisteredAsWritten | Routines.IntendedDeployRZoneFromFiles |
| lib/szmgmt/szones/szones_deployment_routines.rb:256 | boots the zone on the local host after installing it on the remote one | `boot: true`: the boot names the zone on the local host, where it was not installed | boot over the session on the destination host | medium, not executed | Routines.DeployRZoneFromFiles | Routines.IntendedDeployRZoneFromFiles |
| lib/szmgmt/szones/szones_deployment_routines.rb:380 | the same local boot in the remote VM spec routine | `boot: true`, as above | boot on the destination host | medium, not executed | Routines.DeployRZoneFromVmSpec | Routines.IntendedDeployRZoneFromVmSpec |
| lib/szmgmt/szones/szones_deployment_routines.rb:282 | passes the zonecfg path as the host and the options hash as the zonecfg path | any call: `split` on the hash raises `NoMethodError` before the begin block | take the destination host as an extra parameter, which `deploy_rtemplate_from_files(template_name, path_to_zonecfg, opts)` does not have, and pass it, then the zonecfg path | high, not executed | Routines.RTemplateFromFilesAsWritten | Routines.DeployRTemplateFromFiles |
| lib/szmgmt/szones/szones_deployment_routines.rb:406 | calls itself instead of the remote VM spec routine | any call: unbounded recursion ends in `SystemStackError` | take the destination host as an extra parameter, which `deploy_rtemplate_from_vm_spec(template_name, vm_spec, opts)` does not have, and call `deploy_rzone_from_vm_spec` with it and the template name | high, not executed | Routines.RTemplateFromVmSpecAsWritten | Routines.DeployRTemplateFromVmSpec |
