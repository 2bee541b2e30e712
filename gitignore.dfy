/** Lines 130-142: the template ships its ignore file as `gitignore` (so that npm
    does not turn it into `.npmignore`); after the copy it becomes `.gitignore`,
    or is appended to a `.gitignore` that is already there. */
module Gitignore {
  import opened Common
  import opened FileTree
  import opened Trace

  const Neutral := "gitignore"
  const Dotfile := ".gitignore"

  /** The directory after the rename, or after the append-and-delete fallback
      when the rename fails with EEXIST; any other rename error is rethrown. */
  function ResolveIgnore(fs: FileMap): (r: Result<FileMap>)
    ensures r.Ok? <==> Neutral in fs
    ensures r.Err? ==> r.error == NoEntry(Neutral)
    ensures r.Ok? ==> Dotfile in r.value && Neutral !in r.value
    ensures r.Ok? ==> r.value[Dotfile] == (if Dotfile in fs then fs[Dotfile] else "") + fs[Neutral]
    ensures r.Ok? ==> r.value.Keys == fs.Keys - {Neutral} + {Dotfile}
    ensures r.Ok? ==> forall p :: p in fs && p != Neutral && p != Dotfile ==> r.value[p] == fs[p]
  {
    match Renamed(fs, Neutral, Dotfile)
    case Ok(moved) => Ok(moved)
    case Err(EntryExists(_)) =>
      // the rename got past its ENOENT check, so `gitignore` is there to read
      Unlinked(Appended(fs, Dotfile, fs[Neutral]), Neutral)
    case Err(e) => Err(e)
  }

  /** The file-system calls the step makes. */
  function IgnoreCalls(fs: FileMap): (calls: seq<Event>)
    ensures |calls| == (if Neutral in fs && Dotfile in fs then 4 else 1)
    ensures calls[0] == Fs(RenameCall(Neutral, Dotfile))
    ensures Neutral in fs && Dotfile in fs ==>
              calls[1..] == [Fs(ReadCall(Neutral)), Fs(AppendCall(Dotfile)), Fs(UnlinkCall(Neutral))]
    ensures forall i :: 0 <= i < |calls| ==>
              calls[i].Fs? && !calls[i].call.WriteCall? && (calls[i].call.ReadCall? ==> calls[i].call.path == Neutral)
  {
    [Fs(RenameCall(Neutral, Dotfile))]
    + if Neutral in fs && Dotfile in fs
      then [Fs(ReadCall(Neutral)), Fs(AppendCall(Dotfile)), Fs(UnlinkCall(Neutral))]
      else []
  }

  /** The try/catch of lines 131-142 on the directory. */
  method RenameGitignore(dir: Dir) returns (err: Option<Failure>, calls: seq<Event>)
    modifies dir
    ensures calls == IgnoreCalls(old(dir.files))
    ensures err.None? ==> ResolveIgnore(old(dir.files)) == Ok(dir.files)
    ensures err.Some? ==> ResolveIgnore(old(dir.files)) == Err(err.value) && dir.files == old(dir.files)
  {
    calls := [Fs(RenameCall(Neutral, Dotfile))];
    err := dir.Rename(Neutral, Dotfile);
    if err.Some? {
      if err.value.EntryExists? {
        calls := calls + [Fs(ReadCall(Neutral)), Fs(AppendCall(Dotfile)), Fs(UnlinkCall(Neutral))];
        var data := dir.ReadFile(Neutral);
        dir.AppendFile(Dotfile, data.value);
        err := dir.Unlink(Neutral);
      }
    }
  }

  /** Materialising the template a second time and resolving again still leaves one
      `.gitignore` and no `gitignore`; the second run appends the neutral file's
      contents once more after everything the first run left. */
  lemma {:induction false} ResolveTwice(fs: FileMap, template: FileMap)
    requires Neutral in template && Dotfile !in template
    ensures var first := ResolveIgnore(Copied(fs, template));
            && first.Ok?
            && var second := ResolveIgnore(Copied(first.value, template));
            && second.Ok?
            && Dotfile in second.value && Neutral !in second.value
            && second.value[Dotfile]
               == (if Dotfile in fs then fs[Dotfile] else "") + template[Neutral] + template[Neutral]
  {
    var first := ResolveIgnore(Copied(fs, template));
    var again := Copied(first.value, template);
    assert Dotfile in again && again[Dotfile] == first.value[Dotfile];
  }
}
