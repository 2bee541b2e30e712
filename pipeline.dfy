/** The exported pipeline of init.js (lines 44-213), as one strict sequence of
    stages: npm version gate, README backup, manifest edit and write, template
    copy, gitignore resolution, install, generators and report. `Scaffold` says
    what one run does (its outcome, the directory afterwards and its effects in
    order); `Init` performs the same steps one call at a time on a `Dir` and is
    proved to agree with it. */
module Pipeline {
  import opened Common
  import opened JsonValue
  import opened Manifest
  import opened NpmGate
  import opened FileTree
  import opened Gitignore
  import opened Trace
  import opened Report

  const ReadmeName := "README.md"
  const OldReadmeName := "README.old.md"
  const ManifestName := "package.json"

  /** What `install(appPath)` resolves to. */
  datatype InstallResult = InstallResult(code: int, command: string, args: seq<string>)

  /** Everything a run depends on besides the directory: the arguments, the
      answers of the external collaborators, and the two template trees. */
  datatype Setup = Setup(
    appPath: string,
    appName: string,
    resolvedAppName: string,   // path.resolve(cwd, appName)
    useYarn: bool,             // hasYarn(appPath)
    npmVersion: string,        // trimmed output of `npm --version`
    withWebSupport: bool,      // the --with-web-support flag
    template: FileMap,         // <ownPath>/template
    webTemplate: FileMap,      // <ownPath>/template-with-web
    install: InstallResult)

  /** How a run ends. */
  datatype Outcome =
    | Exited(code: int)          // process.exit at the version gate
    | Threw(error: Failure)      // the returned promise rejects
    | InstallFailed              // early return after 'Failed to install'
    | Finished(cdpath: string)   // success report printed

  datatype Run = Run(outcome: Outcome, files: FileMap, events: seq<Event>)

  function TemplateFor(s: Setup): FileMap {
    if s.withWebSupport then s.webTemplate else s.template
  }

  function ProbeEvents(s: Setup): seq<Event> {
    if s.useYarn then [] else [NpmVersionQuery]
  }

  function BackupEvents(s: Setup, fs: FileMap): seq<Event> {
    ProbeEvents(s) + [Fs(PathExistsCall(ReadmeName))]
    + (if ReadmeName in fs then [Fs(RenameCall(ReadmeName, OldReadmeName))] else [])
  }

  /** Lines 77-80: README.md moves to README.old.md when it exists. */
  function BackupReadme(fs: FileMap): (r: Result<FileMap>)
    ensures ReadmeName !in fs ==> r == Ok(fs)
    ensures ReadmeName in fs && OldReadmeName !in fs ==>
      && r.Ok?
      && r.value.Keys == fs.Keys - {ReadmeName} + {OldReadmeName}
      && r.value[OldReadmeName] == fs[ReadmeName]
      && (forall q :: q in fs && q != ReadmeName ==> r.value[q] == fs[q])
    ensures ReadmeName in fs && OldReadmeName in fs ==> r == Err(EntryExists(OldReadmeName))
  {
    if ReadmeName in fs then Renamed(fs, ReadmeName, OldReadmeName) else Ok(fs)
  }

  /** Lines 82-122: package.json is read, parsed, edited and written back once. */
  function WriteManifest(fs: FileMap, web: bool, parse: string -> Option<Json>, stringify: Json -> string): (r: Result<FileMap>)
    ensures ManifestName !in fs ==> r == Err(NoEntry(ManifestName))
    ensures ManifestName in fs && parse(fs[ManifestName]).None? ==> r == Err(SyntaxError)
    ensures r.Ok? <==> (ManifestName in fs && parse(fs[ManifestName]).Some?
                        && (parse(fs[ManifestName]).value.Obj? || parse(fs[ManifestName]).value.Arr?))
    ensures r.Ok? ==> r.value == Written(fs, ManifestName, stringify(TransformDocument(parse(fs[ManifestName]).value, web).value))
  {
    match Contents(fs, ManifestName)
    case Err(e) => Err(e)
    case Ok(text) =>
      match parse(text)
      case None => Err(SyntaxError)
      case Some(doc) =>
        match TransformDocument(doc, web)
        case Err(e) => Err(e)
        case Ok(edited) => Ok(Written(fs, ManifestName, stringify(edited)))
  }

  /** One run of the script on a directory holding `fs`. */
  function Scaffold(s: Setup, fs: FileMap, parse: string -> Option<Json>, stringify: Json -> string): (r: Run)
    ensures r.outcome.Exited? <==> MustExit(s.useYarn, s.npmVersion)
    ensures r.outcome.Exited? ==> r.outcome.code == 1 && r.files == fs
    ensures r.outcome == InstallFailed ==> s.install.code != 0
    ensures r.outcome.Finished? ==> s.install.code == 0
  {
    if MustExit(s.useYarn, s.npmVersion) then
      Run(Exited(1), fs, ProbeEvents(s) + [UnsupportedNpmBanner, ProcessExit(1)])
    else
      match BackupReadme(fs)
      case Err(e) => Run(Threw(e), fs, BackupEvents(s, fs))
      case Ok(moved) => FromManifest(s, ReadmeName in fs, moved, BackupEvents(s, fs), parse, stringify)
  }

  /** The run from line 82 on, after `prior` effects, in a directory holding `fs`;
      `readme` records whether a README.md was backed up. */
  function FromManifest(s: Setup, readme: bool, fs: FileMap, prior: seq<Event>,
                        parse: string -> Option<Json>, stringify: Json -> string): (r: Run)
    ensures r.outcome == InstallFailed ==> s.install.code != 0
    ensures r.outcome.Finished? ==> s.install.code == 0
    ensures !r.outcome.Exited?
  {
    var readEvents := prior + [Fs(ReadCall(ManifestName))];
    match WriteManifest(fs, s.withWebSupport, parse, stringify)
    case Err(e) => Run(Threw(e), fs, readEvents)
    case Ok(written) => FromCopy(s, readme, written, readEvents + [Fs(WriteCall(ManifestName))])
  }

  /** The run from line 125 on: template copy and gitignore resolution. */
  function FromCopy(s: Setup, readme: bool, fs: FileMap, prior: seq<Event>): (r: Run)
    ensures r.outcome == InstallFailed ==> s.install.code != 0
    ensures r.outcome.Finished? ==> s.install.code == 0
    ensures !r.outcome.Exited?
  {
    var copied := Copied(fs, TemplateFor(s));
    var copyEvents := prior + [Fs(CopyCall(s.withWebSupport))] + IgnoreCalls(copied);
    match ResolveIgnore(copied)
    case Err(e) => Run(Threw(e), copied, copyEvents)
    case Ok(resolved) => FromInstall(s, readme, resolved, copyEvents)
  }

  /** The run from line 143 on: install, then generators and report only when
      the install succeeded. The directory is not changed any more. */
  function FromInstall(s: Setup, readme: bool, fs: FileMap, prior: seq<Event>): (r: Run)
    ensures r.files == fs
    ensures r.outcome == InstallFailed <==> s.install.code != 0
    ensures r.outcome.Finished? <==> s.install.code == 0
  {
    var installEvents := prior + [Install];
    if s.install.code != 0 then
      Run(InstallFailed, fs, installEvents + [InstallFailedMessage])
    else
      var pm := PackageManager(s.useYarn);
      var cdpath := CdPath(s.appName, s.appPath, s.resolvedAppName);
      Run(Finished(cdpath), fs,
          installEvents
          + [BaselineInit(s.appName), WindowsGenerator,
             SuccessMessage(s.appName, s.appPath, pm, WebBlock(pm, s.withWebSupport), cdpath)]
          + (if readme then [ReadmeNotice] else [])
          + [HappyHacking])
  }

  /** The exported async function, step by step on the app directory. `parse`
      and `stringify` stand for JSON.parse and JSON.stringify(·, null, 2). */
  method Init(dir: Dir, s: Setup, parse: string -> Option<Json>, stringify: Json -> string)
    returns (outcome: Outcome, events: seq<Event>)
    modifies dir
    ensures Run(outcome, dir.files, events) == Scaffold(s, old(dir.files), parse, stringify)
  {
    ghost var fs := dir.files;
    events := [];

    // lines 50-75
    if !s.useYarn {
      events := events + [NpmVersionQuery];
      var major := ParseIntChar(CharAt(s.npmVersion, 0));
      var minor := ParseIntChar(CharAt(s.npmVersion, 1));
      if StrictEquals(major, 5) && LessThan(minor, 7) {
        events := events + [UnsupportedNpmBanner, ProcessExit(1)];
        return Exited(1), events;
      }
    }

    // lines 77-80
    var readmeExists := dir.PathExists(ReadmeName);
    events := events + [Fs(PathExistsCall(ReadmeName))];
    if readmeExists {
      events := events + [Fs(RenameCall(ReadmeName, OldReadmeName))];
      var err := dir.Rename(ReadmeName, OldReadmeName);
      if err.Some? {
        return Threw(err.value), events;
      }
    }
    assert events == BackupEvents(s, fs);
    assert BackupReadme(fs) == Ok(dir.files);
    assert Scaffold(s, fs, parse, stringify) == FromManifest(s, readmeExists, dir.files, events, parse, stringify);
    ghost var manifestFiles := dir.files;
    ghost var manifestEvents := events;

    // lines 82-122
    events := events + [Fs(ReadCall(ManifestName))];
    var manifestErr := RewriteManifest(dir, s.withWebSupport, parse, stringify);
    if manifestErr.Some? {
      return Threw(manifestErr.value), events;
    }
    events := events + [Fs(WriteCall(ManifestName))];
    assert FromManifest(s, readmeExists, manifestFiles, manifestEvents, parse, stringify)
           == FromCopy(s, readmeExists, dir.files, events);
    ghost var copyFiles := dir.files;
    ghost var copyEvents := events;

    // lines 125-128
    dir.Copy(if s.withWebSupport then s.webTemplate else s.template);
    events := events + [Fs(CopyCall(s.withWebSupport))];

    // lines 131-142
    var ignoreErr, ignoreCalls := RenameGitignore(dir);
    events := events + ignoreCalls;
    if ignoreErr.Some? {
      return Threw(ignoreErr.value), events;
    }

    assert FromCopy(s, readmeExists, copyFiles, copyEvents) == FromInstall(s, readmeExists, dir.files, events);

    outcome, events := InstallAndReport(s, readmeExists, dir.files, events);
  }

  /** Lines 143-212: install, then (only on success) the generators and the report. */
  method InstallAndReport(s: Setup, readmeExists: bool, ghost fs: FileMap, prior: seq<Event>)
    returns (outcome: Outcome, events: seq<Event>)
    ensures Run(outcome, fs, events) == FromInstall(s, readmeExists, fs, prior)
  {
    events := prior + [Install];
    if s.install.code != 0 {
      events := events + [InstallFailedMessage];
      return InstallFailed, events;
    }

    // lines 151-162
    events := events + [BaselineInit(s.appName), WindowsGenerator];

    // lines 166-171
    var cdpath;
    if s.resolvedAppName == s.appPath {
      cdpath := s.appName;
    } else {
      cdpath := s.appPath;
    }

    // lines 173-212
    var npmOrYarn := if s.useYarn then "yarn" else "npm";
    var webBlock := if s.withWebSupport then WebLogMessage(npmOrYarn) else "\n";
    assert npmOrYarn == PackageManager(s.useYarn) && webBlock == WebBlock(npmOrYarn, s.withWebSupport);
    var success := SuccessMessage(s.appName, s.appPath, npmOrYarn, webBlock, cdpath);
    events := events + [success];
    assert events == prior + [Install] + [BaselineInit(s.appName), WindowsGenerator, success];
    if readmeExists {
      events := events + [ReadmeNotice];
    }
    events := events + [HappyHacking];
    outcome := Finished(cdpath);
  }

  /** Lines 82-122 on the directory. On an error nothing has been written. */
  method RewriteManifest(dir: Dir, web: bool, parse: string -> Option<Json>, stringify: Json -> string)
    returns (err: Option<Failure>)
    modifies dir
    ensures err.None? ==> WriteManifest(old(dir.files), web, parse, stringify) == Ok(dir.files)
    ensures err.Some? ==> WriteManifest(old(dir.files), web, parse, stringify) == Err(err.value)
                          && dir.files == old(dir.files)
  {
    var text := dir.ReadFile(ManifestName);
    if text.Err? {
      return Some(text.error);
    }
    var doc := parse(text.value);
    if doc.None? {
      return Some(SyntaxError);
    }
    var edited := EditDocument(doc.value, web);
    if edited.Err? {
      return Some(edited.error);
    }
    dir.WriteFile(ManifestName, stringify(edited.value));
    err := None;
  }
}
