/** What a whole run of the script guarantees, stated over `Scaffold` and proved
    from the stage lemmas of `PipelineProperties`. */
module RunProperties {
  import opened Common
  import opened JsonValue
  import opened Manifest
  import opened NpmGate
  import opened FileTree
  import opened Gitignore
  import opened Trace
  import opened Report
  import opened Pipeline
  import opened PipelineProperties

  lemma Regroup<T>(a: seq<T>, b: seq<T>, c: seq<T>, d: seq<T>)
    ensures a + b + c + d == a + (b + c + d)
  {
  }

  /** The events after the README backup, stage by stage: the manifest read,
      then the write and the copy when the manifest could be edited, then the
      install when the gitignore step succeeded. */
  function LaterEvents(s: Setup, readme: bool, edited: Result<FileMap>): seq<Event> {
    if edited.Err? then [Fs(ReadCall(ManifestName))]
    else [Fs(ReadCall(ManifestName)), Fs(WriteCall(ManifestName))] + CopyTail(s, edited.value)
         + if ResolveIgnore(Copied(edited.value, TemplateFor(s))).Err? then [] else InstallTail(s, readme)
  }

  lemma ManifestLater(s: Setup, readme: bool, moved: FileMap, prior: seq<Event>,
                      parse: string -> Option<Json>, stringify: Json -> string)
    ensures FromManifest(s, readme, moved, prior, parse, stringify).events
         == prior + LaterEvents(s, readme, WriteManifest(moved, s.withWebSupport, parse, stringify))
  {
    ManifestStage(s, readme, moved, prior, parse, stringify);
    var edited := WriteManifest(moved, s.withWebSupport, parse, stringify);
    if edited.Ok? {
      var both := prior + [Fs(ReadCall(ManifestName)), Fs(WriteCall(ManifestName))];
      CopyStage(s, readme, edited.value, both);
      var rest := if ResolveIgnore(Copied(edited.value, TemplateFor(s))).Err? then [] else InstallTail(s, readme);
      Regroup(prior, [Fs(ReadCall(ManifestName)), Fs(WriteCall(ManifestName))], CopyTail(s, edited.value), rest);
    }
  }

  lemma LaterEventsShape(s: Setup, fs: FileMap, parse: string -> Option<Json>, stringify: Json -> string)
    requires !MustExit(s.useYarn, s.npmVersion) && BackupReadme(fs).Ok?
    ensures Scaffold(s, fs, parse, stringify).events
         == BackupEvents(s, fs)
            + LaterEvents(s, ReadmeName in fs, WriteManifest(BackupReadme(fs).value, s.withWebSupport, parse, stringify))
  {
    ManifestLater(s, ReadmeName in fs, BackupReadme(fs).value, BackupEvents(s, fs), parse, stringify);
  }

  /** Every step before the install succeeds: the gate lets the run through,
      README.md could be backed up, package.json could be edited and a
      `gitignore` was there to resolve. */
  predicate StepsSucceed(s: Setup, fs: FileMap, parse: string -> Option<Json>, stringify: Json -> string) {
    && !MustExit(s.useYarn, s.npmVersion)
    && BackupReadme(fs).Ok?
    && WriteManifest(BackupReadme(fs).value, s.withWebSupport, parse, stringify).Ok?
    && ResolveIgnore(Copied(WriteManifest(BackupReadme(fs).value, s.withWebSupport, parse, stringify).value,
                            TemplateFor(s))).Ok?
  }

  /** Lines 44-143: the run gets to the install exactly when no earlier step
      failed, and then its outcome is decided by the install's exit code. */
  lemma ReachesInstallIff(s: Setup, fs: FileMap, parse: string -> Option<Json>, stringify: Json -> string)
    ensures var r := Scaffold(s, fs, parse, stringify);
            && (ReachedInstall(r) <==> StepsSucceed(s, fs, parse, stringify))
            && (StepsSucceed(s, fs, parse, stringify) ==> r.outcome == InstallOutcome(s))
  {
    var r := Scaffold(s, fs, parse, stringify);
    if ReachedInstall(r) {
      var _, _, _ := ReachedShape(s, fs, parse, stringify);
    }
    if StepsSucceed(s, fs, parse, stringify) {
      var moved := BackupReadme(fs).value;
      var prior := BackupEvents(s, fs);
      ManifestStage(s, ReadmeName in fs, moved, prior, parse, stringify);
      var written := WriteManifest(moved, s.withWebSupport, parse, stringify).value;
      CopyStage(s, ReadmeName in fs, written, prior + [Fs(ReadCall(ManifestName)), Fs(WriteCall(ManifestName))]);
    }
  }

  /** No event after the backup is the README notice unless the run finished
      after backing up a README. */
  lemma LaterNotice(s: Setup, readme: bool, edited: Result<FileMap>)
    ensures ReadmeNotice in LaterEvents(s, readme, edited)
            <==> (&& edited.Ok?
                  && ResolveIgnore(Copied(edited.value, TemplateFor(s))).Ok?
                  && readme && s.install.code == 0)
  {
    if edited.Ok? {
      CopyTailFacts(s, edited.value);
      InstallTailFacts(s, readme);
      assert ReadmeNotice !in CopyTail(s, edited.value);
    }
  }

  /** Lines 50-80: `npm --version` is asked first (unless yarn is used), and the
      first file-system call of a run that passes the gate checks for README.md,
      which is renamed right away when present. */
  lemma ReadmeCheckedFirst(s: Setup, fs: FileMap, parse: string -> Option<Json>, stringify: Json -> string)
    ensures var r := Scaffold(s, fs, parse, stringify);
            var k := |ProbeEvents(s)|;
            && |r.events| > k && r.events[..k] == ProbeEvents(s)
            && (NpmVersionQuery in r.events[..k] <==> !s.useYarn)
            && (!MustExit(s.useYarn, s.npmVersion) ==>
                  && r.events[k] == Fs(PathExistsCall(ReadmeName))
                  && (ReadmeName in fs ==> |r.events| > k + 1 && r.events[k + 1] == Fs(RenameCall(ReadmeName, OldReadmeName))))
  {
    var r := Scaffold(s, fs, parse, stringify);
    var backup := BackupEvents(s, fs);
    if MustExit(s.useYarn, s.npmVersion) {
      ExtendsAppend(ProbeEvents(s), [UnsupportedNpmBanner, ProcessExit(1)]);
    } else {
      if BackupReadme(fs).Ok? {
        LaterEventsShape(s, fs, parse, stringify);
        ExtendsAppend(backup, LaterEvents(s, ReadmeName in fs,
                                          WriteManifest(BackupReadme(fs).value, s.withWebSupport, parse, stringify)));
      }
      assert Extends(r.events, backup);
      assert r.events[|ProbeEvents(s)|] == r.events[..|backup|][|ProbeEvents(s)|];
      assert ReadmeName in fs ==> r.events[|ProbeEvents(s)| + 1] == r.events[..|backup|][|ProbeEvents(s)| + 1];
      ExtendsAppend(ProbeEvents(s), backup[|ProbeEvents(s)|..]);
      assert backup == ProbeEvents(s) + backup[|ProbeEvents(s)|..];
      ExtendsTransitive(r.events, backup, ProbeEvents(s));
    }
  }

  /** No event after the backup is the npm version query. */
  lemma LaterNoQuery(s: Setup, readme: bool, edited: Result<FileMap>)
    ensures NpmVersionQuery !in LaterEvents(s, readme, edited)
  {
    if edited.Ok? {
      CopyTailFacts(s, edited.value);
      InstallTailFacts(s, readme);
    }
  }

  /** Lines 50-51: `npm --version` is queried in a run exactly when yarn is not used. */
  lemma NpmQueriedIffNoYarn(s: Setup, fs: FileMap, parse: string -> Option<Json>, stringify: Json -> string)
    ensures NpmVersionQuery in Scaffold(s, fs, parse, stringify).events <==> !s.useYarn
  {
    var r := Scaffold(s, fs, parse, stringify);
    ReadmeCheckedFirst(s, fs, parse, stringify);
    if !s.useYarn {
      assert r.events[0] == r.events[..1][0] == NpmVersionQuery;
    } else {
      assert NpmVersionQuery !in BackupEvents(s, fs);
      if BackupReadme(fs).Ok? {
        LaterEventsShape(s, fs, parse, stringify);
        LaterNoQuery(s, ReadmeName in fs, WriteManifest(BackupReadme(fs).value, s.withWebSupport, parse, stringify));
      }
    }
  }

  /** Lines 77-80 and 205-210: the notice about the renamed README is printed
      exactly when the run finished and a README.md was there to back up. */
  lemma ReadmeNoticeIffBackup(s: Setup, fs: FileMap, parse: string -> Option<Json>, stringify: Json -> string)
    ensures var r := Scaffold(s, fs, parse, stringify);
            ReadmeNotice in r.events <==> r.outcome.Finished? && ReadmeName in fs
  {
    var r := Scaffold(s, fs, parse, stringify);
    if !MustExit(s.useYarn, s.npmVersion) {
      var backup := BackupEvents(s, fs);
      assert ReadmeNotice !in backup;
      if BackupReadme(fs).Ok? {
        var moved := BackupReadme(fs).value;
        LaterEventsShape(s, fs, parse, stringify);
        LaterNotice(s, ReadmeName in fs, WriteManifest(moved, s.withWebSupport, parse, stringify));
        ReachesInstallIff(s, fs, parse, stringify);
      }
    }
  }

  /** The effects the backup step can have: the npm probe and the README calls. */
  lemma BackupEventsFacts(s: Setup, fs: FileMap)
    ensures forall e :: e in BackupEvents(s, fs) ==> e == NpmVersionQuery || e.Fs?
    ensures forall e :: e in BackupEvents(s, fs) && e.Fs? ==> e.call.PathExistsCall? || e.call.RenameCall?
  {
  }

  /** The event sequence of a run that reached the install holds the manifest
      read and write once each, one right after the other. */
  lemma ManifestEventsOnce(s: Setup, written: FileMap, readme: bool, backup: seq<Event>, call: FsCall)
    requires call == ReadCall(ManifestName) || call == WriteCall(ManifestName)
    requires Fs(call) !in backup
    ensures var events := backup + [Fs(ReadCall(ManifestName)), Fs(WriteCall(ManifestName))]
                          + CopyTail(s, written) + InstallTail(s, readme);
            && Count(events, Fs(call)) == 1
            && |events| > |backup| + 1
            && events[|backup|] == Fs(ReadCall(ManifestName))
            && events[|backup| + 1] == Fs(WriteCall(ManifestName))
  {
    var manifest := [Fs(ReadCall(ManifestName)), Fs(WriteCall(ManifestName))];
    var copy := CopyTail(s, written);
    var install := InstallTail(s, readme);
    CopyTailFacts(s, written);
    InstallTailFacts(s, readme);
    assert Fs(call) !in copy;
    assert Fs(call) !in install;
    CountAppend(backup + manifest + copy, install, Fs(call));
    CountAppend(backup + manifest, copy, Fs(call));
    CountAppend(backup, manifest, Fs(call));
    assert manifest == [manifest[0]] + [manifest[1]];
    CountAppend([manifest[0]], [manifest[1]], Fs(call));
  }

  /** Lines 82-122: a run that reaches the install read package.json once and
      wrote it once, the write coming right after the read; no other step reads
      it or calls `writeFile` on it. (The template copy still replaces it when
      the template ships its own package.json; see `AfterSetup`.) */
  lemma ManifestWrittenOnce(s: Setup, fs: FileMap, parse: string -> Option<Json>, stringify: Json -> string)
    ensures var r := Scaffold(s, fs, parse, stringify);
            ReachedInstall(r) ==>
              && Count(r.events, Fs(ReadCall(ManifestName))) == 1
              && Count(r.events, Fs(WriteCall(ManifestName))) == 1
              && |r.events| > |BackupEvents(s, fs)| + 1
              && r.events[|BackupEvents(s, fs)|] == Fs(ReadCall(ManifestName))
              && r.events[|BackupEvents(s, fs)| + 1] == Fs(WriteCall(ManifestName))
  {
    if ReachedInstall(Scaffold(s, fs, parse, stringify)) {
      var moved, written, resolved := ReachedShape(s, fs, parse, stringify);
      BackupEventsFacts(s, fs);
      ManifestEventsOnce(s, written, ReadmeName in fs, BackupEvents(s, fs), ReadCall(ManifestName));
      ManifestEventsOnce(s, written, ReadmeName in fs, BackupEvents(s, fs), WriteCall(ManifestName));
    }
  }

  /** A failed install ends the event sequence: nothing of the success path
      appears in it. */
  lemma FailedInstallEvents(s: Setup, written: FileMap, readme: bool, backup: seq<Event>)
    requires s.install.code != 0
    requires forall e :: e in backup ==> e == NpmVersionQuery || e.Fs?
    ensures var events := backup + [Fs(ReadCall(ManifestName)), Fs(WriteCall(ManifestName))]
                          + CopyTail(s, written) + InstallTail(s, readme);
            && |events| >= 2
            && events[|events| - 2..] == [Install, InstallFailedMessage]
            && Count(events, Install) == 1
            && BaselineInit(s.appName) !in events
            && WindowsGenerator !in events
            && (forall e :: e in events ==> !e.SuccessMessage?)
  {
    var prefix := backup + [Fs(ReadCall(ManifestName)), Fs(WriteCall(ManifestName))] + CopyTail(s, written);
    CopyTailFacts(s, written);
    InstallTailFacts(s, readme);
    assert forall e :: e in prefix ==> e.Fs? || e == NpmVersionQuery;
    var events := prefix + [Install, InstallFailedMessage];
    CountAppend(prefix, [Install, InstallFailedMessage], Install);
    assert Install !in prefix;
    assert [Install, InstallFailedMessage] == [Install] + [InstallFailedMessage];
    CountAppend([Install], [InstallFailedMessage], Install);
    forall e | e in events
      ensures !e.SuccessMessage?
    {
      if e !in prefix {
        assert e == Install || e == InstallFailedMessage;
      }
    }
  }

  /** Lines 143-162: when the install fails the run ends right after its
      message: neither generator runs and no success report is printed. */
  lemma InstallFailureStopsRun(s: Setup, fs: FileMap, parse: string -> Option<Json>, stringify: Json -> string)
    ensures var r := Scaffold(s, fs, parse, stringify);
            && (r.outcome == InstallFailed <==> StepsSucceed(s, fs, parse, stringify) && s.install.code != 0)
            && (r.outcome == InstallFailed ==>
                  && |r.events| >= 2
                  && r.events[|r.events| - 2..] == [Install, InstallFailedMessage]
                  && Count(r.events, Install) == 1
                  && BaselineInit(s.appName) !in r.events
                  && WindowsGenerator !in r.events
                  && (forall e :: e in r.events ==> !e.SuccessMessage?))
  {
    ReachesInstallIff(s, fs, parse, stringify);
    if Scaffold(s, fs, parse, stringify).outcome == InstallFailed {
      var moved, written, resolved := ReachedShape(s, fs, parse, stringify);
      BackupEventsFacts(s, fs);
      FailedInstallEvents(s, written, ReadmeName in fs, BackupEvents(s, fs));
    }
  }

  /** A successful install is followed by both generators and the success
      report, in that order, and the run ends with the closing line; no
      file-system call comes after the install. */
  lemma FinishedEvents(s: Setup, readme: bool, prefix: seq<Event>)
    requires s.install.code == 0
    ensures var events := prefix + InstallTail(s, readme);
            var pm := PackageManager(s.useYarn);
            var k := |prefix|;
            && |events| >= k + 5
            && events[k..k + 4] == [Install, BaselineInit(s.appName), WindowsGenerator,
                                    SuccessMessage(s.appName, s.appPath, pm, WebBlock(pm, s.withWebSupport),
                                                   CdPath(s.appName, s.appPath, s.resolvedAppName))]
            && events[|events| - 1] == HappyHacking
            && (forall i :: k <= i < |events| ==> !events[i].Fs?)
  {
    var events := prefix + InstallTail(s, readme);
    InstallTailFacts(s, readme);
    forall i | |prefix| <= i < |events|
      ensures !events[i].Fs?
    {
      assert events[i] == InstallTail(s, readme)[i - |prefix|];
    }
  }

  /** Lines 153-212: a finished run reports the directory to `cd` into, ran the
      install, then both generators, then printed the success report, and ends
      with the closing line, with no file-system call after the install. */
  lemma FinishedRunReports(s: Setup, fs: FileMap, parse: string -> Option<Json>, stringify: Json -> string)
    ensures var r := Scaffold(s, fs, parse, stringify);
            var pm := PackageManager(s.useYarn);
            var k := |r.events| - (if ReadmeName in fs then 6 else 5);
            r.outcome.Finished? ==>
              && r.outcome.cdpath == CdPath(s.appName, s.appPath, s.resolvedAppName)
              && 0 <= k
              && r.events[k..k + 4] == [Install, BaselineInit(s.appName), WindowsGenerator,
                                        SuccessMessage(s.appName, s.appPath, pm, WebBlock(pm, s.withWebSupport),
                                                       r.outcome.cdpath)]
              && r.events[|r.events| - 1] == HappyHacking
              && (forall i :: k <= i < |r.events| ==> !r.events[i].Fs?)
  {
    if Scaffold(s, fs, parse, stringify).outcome.Finished? {
      var moved, written, resolved := ReachedShape(s, fs, parse, stringify);
      var prefix := BackupEvents(s, fs) + [Fs(ReadCall(ManifestName)), Fs(WriteCall(ManifestName))] + CopyTail(s, written);
      FinishedEvents(s, ReadmeName in fs, prefix);
      assert |InstallTail(s, ReadmeName in fs)| == if ReadmeName in fs then 6 else 5;
    }
  }

  /** Lines 50-83: the runs that stop before the template copy. A
      broken npm exits with code 1 before any file-system call; a README.old.md
      in the way of the backup, or a missing package.json, rejects with the
      directory as it was at that point. */
  lemma EarlyStops(s: Setup, fs: FileMap, parse: string -> Option<Json>, stringify: Json -> string)
    ensures var r := Scaffold(s, fs, parse, stringify);
            && (r.outcome.Exited? ==>
                  && r.outcome.code == 1 && r.files == fs
                  && (forall e :: e in r.events ==> !e.Fs?)
                  && UnsupportedNpmBanner in r.events
                  && r.events[|r.events| - 1] == ProcessExit(1))
            && (!MustExit(s.useYarn, s.npmVersion) && ReadmeName in fs && OldReadmeName in fs ==>
                  r.outcome == Threw(EntryExists(OldReadmeName)) && r.files == fs)
            && (!MustExit(s.useYarn, s.npmVersion) && BackupReadme(fs).Ok? && ManifestName !in fs ==>
                  r.outcome == Threw(NoEntry(ManifestName)) && ManifestName !in r.files)
  {
    var r := Scaffold(s, fs, parse, stringify);
    if MustExit(s.useYarn, s.npmVersion) {
      assert r.events == ProbeEvents(s) + [UnsupportedNpmBanner, ProcessExit(1)];
    } else if ManifestName !in fs && BackupReadme(fs).Ok? {
      assert ManifestName !in BackupReadme(fs).value;
      ManifestStage(s, ReadmeName in fs, BackupReadme(fs).value, BackupEvents(s, fs), parse, stringify);
    }
  }

  /** What a path holds once the template is copied over the directory: the
      template's file when it has one, else the directory's, else nothing. */
  function Provided(fs: FileMap, template: FileMap, p: string): string {
    if p in template then template[p] else if p in fs then fs[p] else ""
  }

  /** The text `writeFile` puts in package.json: the edited document, when the
      file is there, parses and can be edited. */
  function EditedManifest(fs: FileMap, web: bool, parse: string -> Option<Json>, stringify: Json -> string): Option<string> {
    if ManifestName in fs && parse(fs[ManifestName]).Some? && TransformDocument(parse(fs[ManifestName]).value, web).Ok?
    then Some(stringify(TransformDocument(parse(fs[ManifestName]).value, web).value))
    else None
  }

  /** What the directory holds after the backup, the manifest write, the copy
      and the gitignore step, in terms of the directory `fs` before them, the
      template and the text written to package.json: README.md went to
      README.old.md, package.json holds the edited text unless the template
      ships its own, every template file is in place, `gitignore` became
      `.gitignore` (appended to an existing one), and every other file is as it
      was. */
  predicate AfterSetup(fs: FileMap, template: FileMap, text: string, final: FileMap) {
    && final.Keys == fs.Keys - {ReadmeName} + (if ReadmeName in fs then {OldReadmeName} else {})
                     + {ManifestName} + template.Keys - {Neutral} + {Dotfile}
    && final[Dotfile] == Provided(fs, template, Dotfile) + Provided(fs, template, Neutral)
    && final[ManifestName] == (if ManifestName in template then template[ManifestName] else text)
    && (ReadmeName in fs ==>
          final[OldReadmeName] == if OldReadmeName in template then template[OldReadmeName] else fs[ReadmeName])
    && (forall p :: p in template && p != Neutral && p != Dotfile ==> final[p] == template[p])
    && (forall p :: p in fs && p !in template && p != ReadmeName && p != ManifestName && p != Neutral && p != Dotfile
          ==> final[p] == fs[p])
  }

  /** The directory after the backup, the manifest write and the copy. */
  lemma CopiedAfterBackup(fs: FileMap, template: FileMap, text: string)
    requires BackupReadme(fs).Ok?
    ensures var copied := Copied(Written(BackupReadme(fs).value, ManifestName, text), template);
            && copied.Keys == fs.Keys - {ReadmeName} + (if ReadmeName in fs then {OldReadmeName} else {})
                              + {ManifestName} + template.Keys
            && copied[ManifestName] == (if ManifestName in template then template[ManifestName] else text)
            && (ReadmeName in fs ==>
                  copied[OldReadmeName] == if OldReadmeName in template then template[OldReadmeName] else fs[ReadmeName])
            && (forall p :: p in fs && p !in template && p != ReadmeName && p != ManifestName ==> copied[p] == fs[p])
            && (Dotfile in copied <==> Dotfile in fs || Dotfile in template)
            && (Dotfile in copied ==> copied[Dotfile] == Provided(fs, template, Dotfile))
            && (Neutral in copied <==> Neutral in fs || Neutral in template)
            && (Neutral in copied ==> copied[Neutral] == Provided(fs, template, Neutral))
  {
    var moved := BackupReadme(fs).value;
    assert forall p :: p in fs && p != ReadmeName ==> p in moved && moved[p] == fs[p];
  }

  /** The steps of lines 77-142, applied one after the other to a directory in
      which they all succeed, leave it `AfterSetup`. */
  lemma DirectoryAfterSetup(fs: FileMap, template: FileMap, text: string)
    requires BackupReadme(fs).Ok?
    requires Neutral in Copied(Written(BackupReadme(fs).value, ManifestName, text), template)
    ensures Neutral in fs || Neutral in template
    ensures var final := ResolveIgnore(Copied(Written(BackupReadme(fs).value, ManifestName, text), template));
            final.Ok? && AfterSetup(fs, template, text, final.value)
  {
    CopiedAfterBackup(fs, template, text);
  }

  /** The backup does not touch package.json, so the edit after it sees the
      manifest the run started with. */
  lemma ManifestAfterBackup(fs: FileMap, web: bool, parse: string -> Option<Json>, stringify: Json -> string)
    requires BackupReadme(fs).Ok?
    ensures var written := WriteManifest(BackupReadme(fs).value, web, parse, stringify);
            written.Ok? ==>
              && EditedManifest(fs, web, parse, stringify).Some?
              && written.value == Written(BackupReadme(fs).value, ManifestName, EditedManifest(fs, web, parse, stringify).value)
  {
    var moved := BackupReadme(fs).value;
    if ManifestName in moved {
      assert ManifestName in fs && moved[ManifestName] == fs[ManifestName];
    }
  }

  /** Lines 77-142: the directory a run leaves behind once it reaches the
      install is the one `AfterSetup` describes, with the edited package.json text;
      getting there needs a `gitignore` in the template or the directory. */
  lemma FilesAfterSetup(s: Setup, fs: FileMap, parse: string -> Option<Json>, stringify: Json -> string)
    ensures var r := Scaffold(s, fs, parse, stringify);
            var text := EditedManifest(fs, s.withWebSupport, parse, stringify);
            ReachedInstall(r) ==>
              && text.Some?
              && (Neutral in fs || Neutral in TemplateFor(s))
              && AfterSetup(fs, TemplateFor(s), text.value, r.files)
  {
    if ReachedInstall(Scaffold(s, fs, parse, stringify)) {
      var moved, written, resolved := ReachedShape(s, fs, parse, stringify);
      ManifestAfterBackup(fs, s.withWebSupport, parse, stringify);
      var text := EditedManifest(fs, s.withWebSupport, parse, stringify).value;
      DirectoryAfterSetup(fs, TemplateFor(s), text);
    }
  }
}
