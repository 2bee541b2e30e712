/** What one run of the script guarantees, stated over the `Scaffold` model. The
    stage lemmas (`InstallShape`, `CopyStage`, `ManifestStage`) each unfold one
    stage of the run; the run-level lemmas after them combine the three. */
module PipelineProperties {
  import opened Common
  import opened JsonValue
  import opened NpmGate
  import opened FileTree
  import opened Gitignore
  import opened Trace
  import opened Report
  import opened Pipeline

  /** The run got past the gitignore step: it either installed successfully or
      stopped at the failed install. */
  predicate ReachedInstall(r: Run) {
    r.outcome.Finished? || r.outcome == InstallFailed
  }

  predicate Extends(events: seq<Event>, prior: seq<Event>) {
    |events| >= |prior| && events[..|prior|] == prior
  }

  lemma ExtendsTransitive(a: seq<Event>, b: seq<Event>, c: seq<Event>)
    requires Extends(a, b) && Extends(b, c)
    ensures Extends(a, c)
  {
    assert a[..|c|] == a[..|b|][..|c|];
  }

  lemma ExtendsAppend(a: seq<Event>, b: seq<Event>)
    ensures Extends(a + b, a)
  {
    assert (a + b)[..|a|] == a;
  }

  /** The events from the install on (lines 143-212). */
  function InstallTail(s: Setup, readme: bool): seq<Event> {
    if s.install.code != 0 then [Install, InstallFailedMessage]
    else
      var pm := PackageManager(s.useYarn);
      [Install, BaselineInit(s.appName), WindowsGenerator,
       SuccessMessage(s.appName, s.appPath, pm, WebBlock(pm, s.withWebSupport),
                      CdPath(s.appName, s.appPath, s.resolvedAppName))]
      + (if readme then [ReadmeNotice] else []) + [HappyHacking]
  }

  /** How a run that reaches the install ends. */
  function InstallOutcome(s: Setup): Outcome {
    if s.install.code != 0 then InstallFailed else Finished(CdPath(s.appName, s.appPath, s.resolvedAppName))
  }

  /** The events of the template copy and the gitignore step (lines 125-142). */
  function CopyTail(s: Setup, fs: FileMap): seq<Event> {
    [Fs(CopyCall(s.withWebSupport))] + IgnoreCalls(Copied(fs, TemplateFor(s)))
  }

  /** The install stage leaves the directory alone and only appends its tail. */
  lemma InstallShape(s: Setup, readme: bool, fs: FileMap, prior: seq<Event>)
    ensures FromInstall(s, readme, fs, prior) == Run(InstallOutcome(s), fs, prior + InstallTail(s, readme))
  {
    if s.install.code == 0 {
      var pm := PackageManager(s.useYarn);
      var report := [BaselineInit(s.appName), WindowsGenerator,
                     SuccessMessage(s.appName, s.appPath, pm, WebBlock(pm, s.withWebSupport),
                                    CdPath(s.appName, s.appPath, s.resolvedAppName))];
      var notice := if readme then [ReadmeNotice] else [];
      assert prior + [Install] + report + notice + [HappyHacking]
          == prior + ([Install] + report + notice + [HappyHacking]);
    }
  }

  /** Lines 143-212. The install comes first; a failed install ends the run right
      after its message; the README notice is printed only after a successful
      install and only when a README was backed up; no file-system call follows. */
  lemma InstallTailFacts(s: Setup, readme: bool)
    ensures var t := InstallTail(s, readme);
            && |t| >= 2 && t[0] == Install
            && (forall e :: e in t ==> !e.Fs?)
            && (ReadmeNotice in t <==> readme && s.install.code == 0)
            && (s.install.code != 0 <==> t == [Install, InstallFailedMessage])
            && (s.install.code != 0 ==> BaselineInit(s.appName) !in t && WindowsGenerator !in t)
  {
    var t := InstallTail(s, readme);
    if s.install.code == 0 {
      assert t[1] == BaselineInit(s.appName);
      assert ReadmeNotice in t <==> readme;
    }
  }

  /** The copy and the gitignore step only make file-system calls, never a write,
      and read only `gitignore`. */
  lemma CopyTailFacts(s: Setup, fs: FileMap)
    ensures var t := CopyTail(s, fs);
            && t[0] == Fs(CopyCall(s.withWebSupport))
            && (forall e :: e in t ==> e.Fs? && !e.call.WriteCall? && (e.call.ReadCall? ==> e.call.path == Neutral))
  {
    var calls := IgnoreCalls(Copied(fs, TemplateFor(s)));
    forall e | e in CopyTail(s, fs)
      ensures e.Fs? && !e.call.WriteCall? && (e.call.ReadCall? ==> e.call.path == Neutral)
    {
      if e != Fs(CopyCall(s.withWebSupport)) {
        assert e in calls;
        var i :| 0 <= i < |calls| && calls[i] == e;
      }
    }
  }

  /** The run from line 125 on: the copy and gitignore events, then the install
      tail when the gitignore step succeeded. */
  lemma CopyStage(s: Setup, readme: bool, fs: FileMap, prior: seq<Event>)
    ensures var res := ResolveIgnore(Copied(fs, TemplateFor(s)));
            (FromCopy(s, readme, fs, prior)
             == if res.Ok? then Run(InstallOutcome(s), res.value, prior + CopyTail(s, fs) + InstallTail(s, readme))
                else Run(Threw(res.error), Copied(fs, TemplateFor(s)), prior + CopyTail(s, fs)))
  {
    var copyEvents := prior + [Fs(CopyCall(s.withWebSupport))] + IgnoreCalls(Copied(fs, TemplateFor(s)));
    assert copyEvents == prior + CopyTail(s, fs);
    if ResolveIgnore(Copied(fs, TemplateFor(s))).Ok? {
      InstallShape(s, readme, ResolveIgnore(Copied(fs, TemplateFor(s))).value, copyEvents);
    }
  }

  /** The run from line 82 on: the read, then the write and the rest of the run
      when the manifest could be edited. */
  lemma ManifestStage(s: Setup, readme: bool, fs: FileMap, prior: seq<Event>,
                      parse: string -> Option<Json>, stringify: Json -> string)
    ensures var res := WriteManifest(fs, s.withWebSupport, parse, stringify);
            (FromManifest(s, readme, fs, prior, parse, stringify)
             == if res.Ok? then FromCopy(s, readme, res.value, prior + [Fs(ReadCall(ManifestName)), Fs(WriteCall(ManifestName))])
                else Run(Threw(res.error), fs, prior + [Fs(ReadCall(ManifestName))]))
  {
    assert prior + [Fs(ReadCall(ManifestName))] + [Fs(WriteCall(ManifestName))]
        == prior + [Fs(ReadCall(ManifestName)), Fs(WriteCall(ManifestName))];
  }

  /** Everything a run that reaches the install went through: the backup, the
      manifest write, the copy and the gitignore step all succeeded, and the
      events are the concatenation of the stages' events. */
  lemma ReachedShape(s: Setup, fs: FileMap, parse: string -> Option<Json>, stringify: Json -> string)
      returns (moved: FileMap, written: FileMap, resolved: FileMap)
    requires ReachedInstall(Scaffold(s, fs, parse, stringify))
    ensures !MustExit(s.useYarn, s.npmVersion)
    ensures BackupReadme(fs) == Ok(moved)
    ensures WriteManifest(moved, s.withWebSupport, parse, stringify) == Ok(written)
    ensures ResolveIgnore(Copied(written, TemplateFor(s))) == Ok(resolved)
    ensures Scaffold(s, fs, parse, stringify)
         == Run(InstallOutcome(s), resolved,
                BackupEvents(s, fs) + [Fs(ReadCall(ManifestName)), Fs(WriteCall(ManifestName))]
                + CopyTail(s, written) + InstallTail(s, ReadmeName in fs))
  {
    var readme := ReadmeName in fs;
    moved := BackupReadme(fs).value;
    var prior := BackupEvents(s, fs);
    ManifestStage(s, readme, moved, prior, parse, stringify);
    written := WriteManifest(moved, s.withWebSupport, parse, stringify).value;
    CopyStage(s, readme, written, prior + [Fs(ReadCall(ManifestName)), Fs(WriteCall(ManifestName))]);
    resolved := ResolveIgnore(Copied(written, TemplateFor(s))).value;
  }
}
