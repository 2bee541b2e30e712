/** The observable effects of one run of the script, in the order they happen:
    file-system calls, external commands and console output. */
module Trace {

  /** A call into fs-extra / path-exists on a path relative to the app directory. */
  datatype FsCall =
    | PathExistsCall(path: string)
    | ReadCall(path: string)
    | WriteCall(path: string)
    | RenameCall(from: string, to: string)
    | CopyCall(webTemplate: bool)
    | AppendCall(path: string)
    | UnlinkCall(path: string)

  datatype Event =
    | NpmVersionQuery                  // spawn.sync('npm', ['--version'])
    | UnsupportedNpmBanner             // the "npm >= 5.0.0 and < 5.7.0" banner
    | ProcessExit(code: int)           // process.exit(code)
    | Fs(call: FsCall)
    | Install                          // install(appPath)
    | InstallFailedMessage             // console.error('Failed to install')
    | BaselineInit(appName: string)    // cli.init(process.cwd(), appName)
    | WindowsGenerator                 // localCli(['windows'])
    | SuccessMessage(appName: string, appPath: string, packageManager: string, webBlock: string, cdpath: string)
    | ReadmeNotice                     // "You had a `README.md` file, we renamed it ..."
    | HappyHacking

  /** How many times `e` occurs in `events`. */
  function Count(events: seq<Event>, e: Event): (n: nat)
    ensures n <= |events|
    ensures n == 0 <==> e !in events
  {
    if events == [] then 0
    else (if events[0] == e then 1 else 0) + Count(events[1..], e)
  }

  lemma {:induction false} CountAppend(a: seq<Event>, b: seq<Event>, e: Event)
    ensures Count(a + b, e) == Count(a, e) + Count(b, e)
  {
    if a != [] {
      assert (a + b)[1..] == a[1..] + b;
      CountAppend(a[1..], b, e);
    } else {
      assert a + b == b;
    }
  }
}
