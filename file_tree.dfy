/** The app directory as the script sees it through fs-extra: a map from paths
    (relative to `appPath`) to file contents. The pure functions give the effect
    of each file-system call; the class `Dir` is the directory the script
    changes one call at a time. */
module FileTree {
  import opened Common

  type FileMap = map<string, string>

  /** `readFile(p)`: the contents, or ENOENT. */
  function Contents(fs: FileMap, p: string): (r: Result<string>)
    ensures r.Ok? <==> p in fs
    ensures r.Ok? ==> r.value == fs[p]
    ensures r.Err? ==> r.error == NoEntry(p)
  {
    if p in fs then Ok(fs[p]) else Err(NoEntry(p))
  }

  /** `writeFile(p, data)`: creates or replaces `p`, nothing else changes. */
  function Written(fs: FileMap, p: string, data: string): (r: FileMap)
    ensures r.Keys == fs.Keys + {p}
    ensures r[p] == data
    ensures forall q :: q in fs && q != p ==> r[q] == fs[q]
  {
    fs[p := data]
  }

  /** `rename(from, to)`: ENOENT when `from` is missing; EEXIST when `to` is
      present (the behaviour the script's catch block is written for); otherwise
      the file moves and nothing else changes. */
  function Renamed(fs: FileMap, from: string, to: string): (r: Result<FileMap>)
    ensures from !in fs ==> r == Err(NoEntry(from))
    ensures from in fs && to in fs ==> r == Err(EntryExists(to))
    ensures r.Ok? <==> from in fs && to !in fs
    ensures r.Ok? ==> r.value.Keys == fs.Keys - {from} + {to}
    ensures r.Ok? ==> r.value[to] == fs[from]
    ensures r.Ok? ==> forall q :: q in fs && q != from ==> r.value[q] == fs[q]
  {
    if from !in fs then Err(NoEntry(from))
    else if to in fs then Err(EntryExists(to))
    else Ok((fs - {from})[to := fs[from]])
  }

  /** `appendFile(p, data)`: the data goes after the existing contents; a missing
      file is created. */
  function Appended(fs: FileMap, p: string, data: string): (r: FileMap)
    ensures r.Keys == fs.Keys + {p}
    ensures r[p] == (if p in fs then fs[p] else "") + data
    ensures forall q :: q in fs && q != p ==> r[q] == fs[q]
  {
    fs[p := (if p in fs then fs[p] else "") + data]
  }

  /** `unlink(p)`: removes `p`, or ENOENT. */
  function Unlinked(fs: FileMap, p: string): (r: Result<FileMap>)
    ensures r.Ok? <==> p in fs
    ensures r.Err? ==> r.error == NoEntry(p)
    ensures r.Ok? ==> r.value.Keys == fs.Keys - {p}
    ensures r.Ok? ==> forall q :: q in r.value ==> r.value[q] == fs[q]
  {
    if p in fs then Ok(fs - {p}) else Err(NoEntry(p))
  }

  /** `copy(templateDir, appPath)`: every template file lands at its relative
      path, replacing a file already there; other files stay. */
  function Copied(fs: FileMap, template: FileMap): (r: FileMap)
    ensures r.Keys == fs.Keys + template.Keys
    ensures forall q :: q in template ==> r[q] == template[q]
    ensures forall q :: q in fs && q !in template ==> r[q] == fs[q]
  {
    fs + template
  }

  /** The app directory, changed in place by the script's file-system calls. */
  class Dir {
    var files: FileMap

    constructor (files: FileMap)
      ensures this.files == files
    {
      this.files := files;
    }

    /** `pathExists(p)` */
    method PathExists(p: string) returns (b: bool)
      ensures b <==> p in files
    {
      b := p in files;
    }

    method ReadFile(p: string) returns (r: Result<string>)
      ensures r == Contents(files, p)
    {
      if p in files {
        r := Ok(files[p]);
      } else {
        r := Err(NoEntry(p));
      }
    }

    method WriteFile(p: string, data: string)
      modifies this
      ensures files == Written(old(files), p, data)
    {
      files := files[p := data];
    }

    /** Returns the error the call rejects with, if any; on an error nothing changes. */
    method Rename(from: string, to: string) returns (err: Option<Failure>)
      modifies this
      ensures err.None? ==> Renamed(old(files), from, to) == Ok(files)
      ensures err.Some? ==> Renamed(old(files), from, to) == Err(err.value) && files == old(files)
    {
      if from !in files {
        err := Some(NoEntry(from));
      } else if to in files {
        err := Some(EntryExists(to));
      } else {
        files := (files - {from})[to := files[from]];
        err := None;
      }
    }

    method AppendFile(p: string, data: string)
      modifies this
      ensures files == Appended(old(files), p, data)
    {
      var existing := if p in files then files[p] else "";
      files := files[p := existing + data];
    }

    method Unlink(p: string) returns (err: Option<Failure>)
      modifies this
      ensures err.None? ==> Unlinked(old(files), p) == Ok(files)
      ensures err.Some? ==> Unlinked(old(files), p) == Err(err.value) && files == old(files)
    {
      if p in files {
        files := files - {p};
        err := None;
      } else {
        err := Some(NoEntry(p));
      }
    }

    method Copy(template: FileMap)
      modifies this
      ensures files == Copied(old(files), template)
    {
      files := files + template;
    }
  }
}
