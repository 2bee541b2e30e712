/** The parts of the closing report that vary between runs (init.js lines
    164-212 and `webLogMessage`, lines 215-220). Colouring is not modelled: a
    chalk-coloured string stands for its plain text. */
module Report {

  /** `npmOrYarn`: the command prefix shown to the user. */
  function PackageManager(useYarn: bool): (r: string)
    ensures r == "yarn" <==> useYarn
    ensures r == "npm" <==> !useYarn
  {
    if useYarn then "yarn" else "npm"
  }

  /** The directory the user is told to `cd` into (lines 166-171): the bare app
      name when it resolves, from the caller's cwd, to the app path, and the full
      app path otherwise. Argument `resolved` is `path.resolve(cwd, appName)`. */
  function CdPath(appName: string, appPath: string, resolved: string): (r: string)
    ensures resolved == appPath ==> r == appName
    ensures resolved != appPath ==> r == appPath
    ensures appName != appPath ==> (r == appName <==> resolved == appPath)
  {
    if resolved == appPath then appName else appPath
  }

  /** `webLogMessage(npmOrYarn)`: the block that advertises `<pm> web`. */
  function WebLogMessage(packageManager: string): (r: string)
    ensures |r| > 3 + |packageManager + " web"|
    ensures r[3..3 + |packageManager + " web"|] == packageManager + " web"
  {
    "\n  " + packageManager + " web" + "\n    Starts the Webpack server to serve the web version of the app.\n  "
  }

  /** What line 190 interpolates into the success message. */
  function WebBlock(packageManager: string, web: bool): (r: string)
    ensures r == "\n" <==> !web
    ensures web ==> r == WebLogMessage(packageManager)
  {
    if web then WebLogMessage(packageManager) else "\n"
  }
}
