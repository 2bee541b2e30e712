# The `init` script of react-native-scripts, modelled in Dafny

`react-native-scripts/src/scripts/init.js` exports the async function that turns a
freshly created directory into a React Native app. It runs these steps in order:

1. It refuses buggy npm versions (lines 50-75).
2. It moves an existing `README.md` aside (lines 77-80).
3. It rewrites the app's `package.json` (lines 82-122).
4. It copies the template and turns `gitignore` into `.gitignore` (lines 124-142).
5. It runs the install and stops if that fails (lines 143-148).
6. It calls the two generators and prints the success report (lines 150-212).

This project models that function and `webLogMessage` (lines 215-220), and proves
properties of the model.

The model has two layers:

- **What one run does.** `Pipeline.Scaffold` is a pure function of the run's
  inputs (`Pipeline.Setup`) and the directory contents. It returns the outcome, the
  directory afterwards and the effects in order (`Trace.Event`). The effects are
  the file-system calls, the external commands and the console messages.
- **How the script does it.** `Pipeline.Init` performs the same steps one call at
  a time on a `FileTree.Dir`, which is a class whose `files` map the methods
  update in place. The parsed manifest is a `Manifest.AppPackage` object, which
  the script mutates through assignments and `Object.assign`. `Init` is proved to
  produce exactly what `Scaffold` describes. `Manifest.Customize` is proved to
  produce exactly what `Manifest.Transform` describes.

Files:

- `common.dfy`: `Option`, `Result` and the failures a run can reject with.
- `json_value.dfy`: JSON values, JavaScript truthiness, and `Object.assign`.
- `file_tree.dfy`: the app directory as a map from relative path to contents; the fs-extra calls, both as pure functions and as methods of `Dir`.
- `npm_gate.dfy`: the version gate.
- `manifest.dfy`: the package.json edits.
- `gitignore.dfy`: the gitignore rename and its EEXIST fallback.
- `report.dfy`: the `cd` hint and the web block of the success report.
- `trace.dfy`: the effects of a run.
- `pipeline.dfy`: the whole run, pure and imperative.
- `pipeline_properties.dfy` and `run_properties.dfy`: what a run guarantees.

The version gate is modelled as the code is written, not as it was evidently
meant. Lines 53-54 apply `parseInt` to the first and second *characters* of the
version string, not to the parts of `npmVersion.split('.')`. So for `"5.6.0"` the
"minor" number is `parseInt('.')`, which is NaN, and `NaN < 7` is false: npm 5.6.0
passes the gate. A two-digit major such as `"50.1.0"` does trip it
(`NpmGate.DottedVersionNeverExits`, `NpmGate.FiftyFiresGate`).

The comment at line 121 speaks of writing package.json "after copying". In the
code, the write at line 122 comes before the copy at lines 125-128. The model
follows the code: when the template ships its own `package.json`, that file
replaces the edited manifest (`RunProperties.AfterSetup`).

## Model

| member | source | states |
|---|---|---|
| NpmGate.ParseIntChar | react-native-scripts/src/scripts/init.js:53-54 | `parseInt` of one character is a number exactly when the character is a decimal digit, and then it is that digit's value (0 to 9); otherwise NaN |
| NpmGate.CharAt | react-native-scripts/src/scripts/init.js:53-54 | indexing the version string gives a character exactly when the index is in range, and it is the character at that index |
| NpmGate.MustExit | react-native-scripts/src/scripts/init.js:50-74 | the run exits exactly when yarn is not used, the version has at least two characters, the first is `5` and the second is a digit from `0` to `6` |
| NpmGate.DottedVersionNeverExits | react-native-scripts/src/scripts/init.js:50-74 | a version whose second character is `.` never trips the gate, whatever its digits |
| NpmGate.FiftyFiresGate | react-native-scripts/src/scripts/init.js:50-74 | `"50.1.0"` trips the gate without yarn and not with it; `"5.6.0"` does not trip it |
| JsonValue.Strings | react-native-scripts/src/scripts/init.js:16-38 | a string table becomes a JSON object with the same keys, each holding its string |
| JsonValue.StringsUnion | react-native-scripts/src/scripts/init.js:96-101 | converting the union of two string tables equals the union of the converted tables |
| JsonValue.Assign | react-native-scripts/src/scripts/init.js:98-101 | `Object.assign` into an object gives the union of the keys, with the source winning on shared keys and target-only keys kept; into a non-null non-object target the written value does not change |
| FileTree.Contents | react-native-scripts/src/scripts/init.js:83 | reading succeeds exactly when the file exists and gives its contents; otherwise it fails with ENOENT for that path |
| FileTree.Written | react-native-scripts/src/scripts/init.js:122 | a write creates or replaces exactly one file and keeps every other file |
| FileTree.Renamed | react-native-scripts/src/scripts/init.js:79 | rename fails with ENOENT when the source is missing and with EEXIST when the destination exists; otherwise the contents move and every other file is kept |
| FileTree.Appended | react-native-scripts/src/scripts/init.js:137 | appending puts the data after the old contents, or creates the file; every other file is kept |
| FileTree.Unlinked | react-native-scripts/src/scripts/init.js:138 | unlink removes exactly that path, or fails with ENOENT |
| FileTree.Copied | react-native-scripts/src/scripts/init.js:125-128 | after the copy every template file is present with the template's contents, and every other file is unchanged |
| FileTree.Dir.PathExists | react-native-scripts/src/scripts/init.js:77 | `pathExists` answers whether the file is in the directory |
| FileTree.Dir.ReadFile | react-native-scripts/src/scripts/init.js:83 | the read result is `Contents` of the directory |
| FileTree.Dir.WriteFile | react-native-scripts/src/scripts/init.js:122 | the directory becomes `Written` of the old one |
| FileTree.Dir.Rename | react-native-scripts/src/scripts/init.js:79 | the directory becomes `Renamed` of the old one; on an error the error is returned and nothing changes |
| FileTree.Dir.AppendFile | react-native-scripts/src/scripts/init.js:137 | the directory becomes `Appended` of the old one |
| FileTree.Dir.Unlink | react-native-scripts/src/scripts/init.js:138 | the directory becomes `Unlinked` of the old one; on an error nothing changes |
| FileTree.Dir.Copy | react-native-scripts/src/scripts/init.js:125-128 | the directory becomes `Copied` over the template |
| Manifest.Scripts | react-native-scripts/src/scripts/init.js:87-101 | `scripts` holds exactly `start`, `eject`, `android`, `ios` and `test`, plus `web` and `build` with web support, each with the script's command; no earlier script survives |
| Manifest.MergedDependencies | react-native-scripts/src/scripts/init.js:108-119 | a missing or falsy dependency map becomes exactly the defaults; an object gains every default with the default's version and keeps every key only the user had; any other truthy value is written back unchanged |
| Manifest.Edited | react-native-scripts/src/scripts/init.js:86-119 | the owned keys are added; `main`, `scripts` and `jest` get the given values; both dependency maps are merged; every other key is kept |
| Manifest.Transform | react-native-scripts/src/scripts/init.js:86-119 | `main` is the `crna-entry.js` path, or the `crna-entry-web.js` path with web support; `scripts` is `Scripts`; `jest` is exactly `{preset: 'jest-expo'}`; both dependency maps are merged; keys other than the five owned ones are unchanged, and no key is removed |
| Manifest.TransformDocument | react-native-scripts/src/scripts/init.js:83-119 | an object document is edited by `Transform`; an array is written back unchanged; null and primitives reject with a TypeError |
| Manifest.TransformIdempotent | react-native-scripts/src/scripts/init.js:86-119 | editing an already edited manifest changes nothing |
| Manifest.EditedIdempotent | react-native-scripts/src/scripts/init.js:86-119 | the edits with any fixed owned values are idempotent |
| Manifest.MergeIdempotent | react-native-scripts/src/scripts/init.js:108-119 | merging the same defaults into an already merged map changes nothing |
| Manifest.AppPackage.Set | react-native-scripts/src/scripts/init.js:86-106 | a property assignment updates exactly that key |
| Manifest.AppPackage.IsFalsy | react-native-scripts/src/scripts/init.js:108-113 | `!appPackage[key]` holds exactly when the key is missing or its value is falsy |
| Manifest.AppPackage.AssignInto | react-native-scripts/src/scripts/init.js:98-101 | `Object.assign(appPackage[key], source)` replaces that key's value by `Assign` of it and changes nothing else |
| Manifest.EnsureObject | react-native-scripts/src/scripts/init.js:108-114 | a falsy or missing dependency map becomes `{}`; afterwards the key holds a non-null value |
| Manifest.SetEntryAndScripts | react-native-scripts/src/scripts/init.js:86-106 | after lines 86-106 `main`, `scripts` and `jest` hold their final values and nothing else changed |
| Manifest.MergeDefaults | react-native-scripts/src/scripts/init.js:108-119 | after lines 108-119 each dependency map holds `MergedDependencies` of the original manifest |
| Manifest.EditInPlace | react-native-scripts/src/scripts/init.js:86-119 | the in-place statements produce `Edited` of the original object |
| Manifest.Customize | react-native-scripts/src/scripts/init.js:86-119 | the in-place edits of the parsed object produce `Transform` of it |
| Manifest.EditObject | react-native-scripts/src/scripts/init.js:83-119 | editing a parsed object in place gives `Transform` of it |
| Manifest.EditDocument | react-native-scripts/src/scripts/init.js:83-119 | editing whatever `JSON.parse` returned gives `TransformDocument` of it |
| Gitignore.ResolveIgnore | react-native-scripts/src/scripts/init.js:130-142 | it succeeds exactly when `gitignore` exists, and otherwise rethrows ENOENT; on success `.gitignore` exists, `gitignore` does not, and `.gitignore` holds the old `.gitignore` (or nothing) followed by `gitignore`'s contents; every other file is kept |
| Gitignore.IgnoreCalls | react-native-scripts/src/scripts/init.js:130-142 | the step starts with the rename; when both files exist it then reads `gitignore`, appends to `.gitignore` and unlinks `gitignore`, in that order, and otherwise makes no other call; it never writes and only reads `gitignore` |
| Gitignore.RenameGitignore | react-native-scripts/src/scripts/init.js:130-142 | the try/catch on the directory makes the calls `IgnoreCalls` lists and leaves the directory `ResolveIgnore` describes, or rejects with its error and leaves it as it was |
| Gitignore.ResolveTwice | react-native-scripts/src/scripts/init.js:124-142 | copying the template and resolving a second time still leaves exactly one ignore file, with the neutral contents appended once more |
| Report.PackageManager | react-native-scripts/src/scripts/init.js:48 | the commands shown start with `yarn` exactly when yarn is used, and with `npm` otherwise |
| Report.CdPath | react-native-scripts/src/scripts/init.js:166-171 | the hint is `appName` when `resolve(cwd, appName)` is `appPath`, and `appPath` otherwise; when the two names differ, the hint is `appName` exactly in the first case |
| Report.WebLogMessage | react-native-scripts/src/scripts/init.js:215-220 | after its leading newline and indentation, the block names the command `<npm or yarn> web` |
| Report.WebBlock | react-native-scripts/src/scripts/init.js:190 | the report holds the web block exactly when web support is on, and a bare newline otherwise |
| Pipeline.BackupReadme | react-native-scripts/src/scripts/init.js:77-80 | without `README.md` nothing changes; otherwise it moves to `README.old.md` and every other file keeps its contents, or the run rejects with EEXIST when `README.old.md` is already there |
| Pipeline.WriteManifest | react-native-scripts/src/scripts/init.js:82-122 | it rejects with ENOENT without a package.json and with a SyntaxError when it does not parse; it succeeds exactly when the parsed document is an object or an array; it then writes `stringify` of `TransformDocument` of the parsed document |
| Pipeline.Scaffold | react-native-scripts/src/scripts/init.js:44-213 | the run exits exactly when `MustExit` holds, with code 1 and the directory untouched; it fails at the install only with a non-zero code and finishes only with code 0 |
| Pipeline.FromManifest | react-native-scripts/src/scripts/init.js:82-213 | the rest of the run from line 82 never exits; it fails at the install only with a non-zero code and finishes only with code 0 |
| Pipeline.FromCopy | react-native-scripts/src/scripts/init.js:124-213 | the rest of the run from line 124 never exits; it fails at the install only with a non-zero code and finishes only with code 0 |
| Pipeline.FromInstall | react-native-scripts/src/scripts/init.js:143-213 | from the install on the script's own calls leave the directory as it was (what `install` itself writes is not modelled), and the run fails exactly when the install code is non-zero and finishes exactly when it is zero |
| Pipeline.Init | react-native-scripts/src/scripts/init.js:44-213 | the script, step by step on the directory, ends with the outcome, directory and effects that `Scaffold` gives |
| Pipeline.InstallAndReport | react-native-scripts/src/scripts/init.js:143-212 | the install, generators and report produce the outcome and effects `FromInstall` gives |
| Pipeline.RewriteManifest | react-native-scripts/src/scripts/init.js:82-122 | reading, editing and writing package.json leaves the directory `WriteManifest` gives, or rejects with its error with nothing written |
| PipelineProperties.InstallShape | react-native-scripts/src/scripts/init.js:143-212 | the install stage makes no file-system call of the script's own, so the modelled directory is kept; it only appends its events |
| PipelineProperties.InstallTailFacts | react-native-scripts/src/scripts/init.js:143-212 | the install comes first; no file-system call follows; the README notice appears exactly after a successful install with a README backed up; a failed install leaves only its message, with no generator |
| PipelineProperties.CopyTailFacts | react-native-scripts/src/scripts/init.js:124-142 | the copy and the gitignore step start with the copy, only make file-system calls, never write, and only read `gitignore` |
| PipelineProperties.CopyStage | react-native-scripts/src/scripts/init.js:124-213 | from line 124 the run resolves the gitignore and then installs, or rejects with the gitignore error after the copy |
| PipelineProperties.ManifestStage | react-native-scripts/src/scripts/init.js:82-124 | from line 82 the run reads package.json, then writes it and goes on to the copy, or rejects right after the read |
| PipelineProperties.ReachedShape | react-native-scripts/src/scripts/init.js:44-213 | a run that reaches the install passed the gate, backed up the README, wrote the manifest and resolved the gitignore; its effects are those steps' effects in order |
| RunProperties.ReachesInstallIff | react-native-scripts/src/scripts/init.js:44-148 | the run reaches the install exactly when every earlier step succeeds, and then the install code alone decides the outcome |
| RunProperties.ReadmeCheckedFirst | react-native-scripts/src/scripts/init.js:50-80 | `npm --version` is asked first, and only without yarn; the first file-system call of a run past the gate checks for `README.md`, which is renamed right after when present |
| RunProperties.NpmQueriedIffNoYarn | react-native-scripts/src/scripts/init.js:50-51 | a run queries `npm --version` exactly when yarn is not used |
| RunProperties.ReadmeNoticeIffBackup | react-native-scripts/src/scripts/init.js:205-210 | the notice about the renamed README is printed exactly when the run finishes and a `README.md` was there |
| RunProperties.ManifestWrittenOnce | react-native-scripts/src/scripts/init.js:82-122 | a run that reaches the install reads package.json once and writes it once, right after the backup; no other step reads it or calls `writeFile` on it (the template copy replaces it when the template ships its own `package.json`) |
| RunProperties.InstallFailureStopsRun | react-native-scripts/src/scripts/init.js:143-162 | the install fails exactly when every earlier step succeeds and the code is non-zero; then the run ends with the install and its message, with no generator and no success report |
| RunProperties.FinishedRunReports | react-native-scripts/src/scripts/init.js:150-212 | a finished run reports the `cd` hint; it runs the install, both generators and the success report in that order; it ends with the closing line, with no file-system call after the install |
| RunProperties.EarlyStops | react-native-scripts/src/scripts/init.js:50-83 | a broken npm exits with code 1 before any file-system call and leaves the directory as it was; a `README.old.md` in the way rejects with EEXIST with nothing changed; a missing package.json rejects with ENOENT |
| RunProperties.FilesAfterSetup | react-native-scripts/src/scripts/init.js:77-142 | a run that reaches the install leaves `README.md` moved to `README.old.md` and package.json holding the edited manifest unless the template ships one; every template file is in place; `gitignore` has become `.gitignore`, appended to an existing one; every other file is unchanged |
| RunProperties.DirectoryAfterSetup | react-native-scripts/src/scripts/init.js:77-142 | the backup, the write, the copy and the gitignore step, applied in order, leave the directory `AfterSetup` describes |
| RunProperties.CopiedAfterBackup | react-native-scripts/src/scripts/init.js:77-128 | after the backup, the write and the copy, each path holds the template's file, else the new manifest, else the moved README, else its old contents |
| RunProperties.ManifestAfterBackup | react-native-scripts/src/scripts/init.js:77-122 | the backup does not touch package.json, so the write after it stores the edited version of the original manifest |
| RunProperties.LaterNotice | react-native-scripts/src/scripts/init.js:82-210 | after the backup the README notice appears exactly when every step succeeds, a README was backed up and the install code is zero |
| RunProperties.ManifestEventsOnce | react-native-scripts/src/scripts/init.js:82-212 | in the effects of a run that reached the install, the manifest read and write occur once each, one right after the other |
| RunProperties.FailedInstallEvents | react-native-scripts/src/scripts/init.js:143-148 | the effects of a run whose install failed end with the install and its message, and contain no generator and no success report |
| RunProperties.FinishedEvents | react-native-scripts/src/scripts/init.js:143-212 | after a successful install come both generators and the success report, then the closing line; no file-system call follows |

## Left out

- Console text and `chalk` colours. The messages are effects (`Trace.Event`); only the parts that vary between runs are modelled: the package manager, the web block, the `cd` hint and the app name and path.
- Trimming of the `npm --version` output. `Setup.npmVersion` is the already trimmed string, and `spawn.sync` is not modelled.
- `minimist` argument parsing. `with-web-support` is the boolean `Setup.withWebSupport`.
- `path.join` and `path.resolve`. Paths are relative to `appPath`, and `path.resolve(cwd, appName)` is the input `Setup.resolvedAppName`.
- The serialised JSON text. `JSON.parse` and `JSON.stringify(·, null, 2)` are function parameters of the pipeline; the manifest is a JSON value.
- `hasYarn`, `install`, `cli.init` and `localCli(['windows'])`. They are inputs (`useYarn`, `install`) or effects (`BaselineInit`, `WindowsGenerator`); what `install` writes to the app directory (`node_modules`, a lock file) and what the generators write are not modelled. The `files` of `Pipeline.FromInstall`, `PipelineProperties.InstallShape` and `RunProperties.FilesAfterSetup` are therefore the directory as the script's own file-system calls leave it. `BaselineInit` records only the app name: the directory `cli.init` is loaded from and called with (lines 151-159) is the process's working directory, which is neither `appPath` nor the `cwd` parameter of line 167, and is not modelled. `react-native-scripts/src/util/localCli.js` is not part of this model.
- Async scheduling. `cli.init` is not awaited in the source, but the model treats the run as one strict sequence.
- The recursive directory walk of `fse.copy`. A template is a flat map from relative path to contents, and its files replace same-named files.
- `rename` when the destination exists. POSIX `rename` would replace the destination silently. The model follows the EEXIST contract that the catch block of lines 131-142 is written for, and uses it for every rename, so an existing `README.old.md` makes the backup at line 79 reject.
- The `verbose` parameter and the unused `patchVersion` and `npmVersionParts`. They have no effect on the run.
- JsonValue.Assign: index-like source keys are not modelled. With such a key, `Object.assign` would overwrite an element of an array target, or throw on a string target whose length covers the index. `Assign` leaves every array and primitive target unchanged. The sources the script passes (the web scripts and the two default dependency tables) have no index-like keys, so no run of the script is affected.
- Generator failures. `require(localCliModulePath)` and `cli.init` (lines 158-159) and `localCli(['windows'])` (line 162) are modelled as never throwing. If one of them threw, the promise would reject before the success report; the model always finishes after a zero install code. This affects `Pipeline.FromInstall`, `Pipeline.InstallAndReport`, `PipelineProperties.InstallTailFacts`, `RunProperties.ReachesInstallIff` and `RunProperties.FinishedRunReports`.
- File-system failures other than ENOENT and EEXIST. In the model, reads, renames and unlinks fail only on a missing path, and a rename also fails on an existing destination. `fse.copy` (line 125) and `writeFile` (line 122) always succeed, and so does `appendFile` (line 137). Permission errors, a full disk and a missing or unreadable template directory are not modelled. This affects `Pipeline.Scaffold`, `Pipeline.WriteManifest`, `PipelineProperties.CopyStage`, `RunProperties.ReachesInstallIff`, `RunProperties.EarlyStops` and `RunProperties.FilesAfterSetup`: their statements about which errors a run can reject with hold only within these failure modes.
