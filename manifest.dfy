/** The edits the script makes to the app's package.json (init.js lines 82-122):
    a pure description of the resulting manifest, and the in-place mutation of the
    parsed object that the script performs, proved to produce it. */
module Manifest {
  import opened Common
  import opened JsonValue

  const EntryPath := "./node_modules/react-native-scripts/build/bin/crna-entry.js"
  const WebEntryPath := "./node_modules/react-native-scripts/build/bin/crna-entry-web.js"

  /** The scripts every generated app gets. */
  const BaseScripts: map<string, string> := map[
    "start" := "react-native-scripts start",
    "eject" := "react-native-scripts eject",
    "android" := "react-native-scripts android",
    "ios" := "react-native-scripts ios",
    "test" := "jest"
  ]

  /** The extra scripts of an app created with web support. */
  const WebScripts: map<string, string> := map[
    "web" := "webpack-dev-server -d --config ./webpack.config.js  --inline --hot --colors --content-base public/ --history-api-fallback",
    "build" := "NODE_ENV=production webpack -p --config ./webpack.config.js"
  ]

  const DefaultDependencies: map<string, string> := map[
    "react" := "16.4.0",
    "react-native" := "0.55.4",
    "react-native-windows" := "0.55.0-rc.0"
  ]

  const DefaultDevDependencies: map<string, string> := map[
    "@types/jest" := "22.2.3",
    "@types/react" := "16.3.14",
    "@types/react-native" := "0.55.15",
    "@types/react-test-renderer" := "16.0.1",
    "babel-jest" := "23.0.0",
    "babel-preset-react-native" := "4.0.0",
    "jest" := "23.0.0",
    "react-addons-test-utils" := "15.6.2",
    "react-native-mock" := "0.3.1",
    "react-native-typescript-transformer" := "1.2.8",
    "react-test-renderer" := "16.4.0",
    "rnpm-plugin-windows" := "0.2.8",
    "ts-jest" := "22.4.6",
    "typescript" := "2.8.3"
  ]

  const JestConfig: Json := Obj(map["preset" := Str("jest-expo")])

  /** The top-level keys the script writes; every other key is the user's. */
  const OwnedKeys: set<string> := {"main", "scripts", "jest", "dependencies", "devDependencies"}

  /** The `scripts` object the manifest ends up with: replaced outright, with the
      web scripts added when web support is on. */
  function Scripts(web: bool): (r: map<string, string>)
    ensures web ==> r.Keys == {"start", "eject", "android", "ios", "test", "web", "build"}
    ensures !web ==> r.Keys == {"start", "eject", "android", "ios", "test"}
    ensures forall k :: k in BaseScripts ==> r[k] == BaseScripts[k]
    ensures web ==> forall k :: k in WebScripts ==> r[k] == WebScripts[k]
  {
    if web then BaseScripts + WebScripts else BaseScripts
  }

  /** The value the dependency map under `key` has after lines 108-119: a falsy or
      missing value is first replaced by `{}`, then the defaults are merged in. */
  function MergedDependencies(props: map<string, Json>, key: string, defaults: map<string, string>): (r: Json)
    ensures Falsy(props, key) ==> r == Obj(Strings(defaults))
    ensures !Falsy(props, key) && props[key].Obj? ==>
      && r.Obj?
      && r.props.Keys == props[key].props.Keys + defaults.Keys
      && (forall k :: k in defaults ==> r.props[k] == Str(defaults[k]))
      && (forall k :: k in props[key].props && k !in defaults ==> r.props[k] == props[key].props[k])
    ensures !Falsy(props, key) && !props[key].Obj? ==> r == props[key]
  {
    var current := if Falsy(props, key) then Obj(map[]) else props[key];
    Assign(current, Strings(defaults))
  }

  /** The edits of lines 86-119 for given values of the owned keys: `main`,
      `scripts` and `jest` are overwritten, the two dependency maps merged. */
  function Edited(props: map<string, Json>, main: Json, scripts: Json,
                  dependencies: map<string, string>, devDependencies: map<string, string>): (r: map<string, Json>)
    ensures r.Keys == props.Keys + OwnedKeys
    ensures forall k :: k in props && k !in OwnedKeys ==> r[k] == props[k]
    ensures r["main"] == main && r["scripts"] == scripts && r["jest"] == JestConfig
    ensures r["dependencies"] == MergedDependencies(props, "dependencies", dependencies)
    ensures r["devDependencies"] == MergedDependencies(props, "devDependencies", devDependencies)
  {
    props["main" := main]
         ["scripts" := scripts]
         ["jest" := JestConfig]
         ["dependencies" := MergedDependencies(props, "dependencies", dependencies)]
         ["devDependencies" := MergedDependencies(props, "devDependencies", devDependencies)]
  }

  /** The manifest object after the script's edits (lines 86-119). */
  function Transform(props: map<string, Json>, web: bool): (r: map<string, Json>)
    ensures r.Keys == props.Keys + OwnedKeys
    ensures forall k :: k in props && k !in OwnedKeys ==> r[k] == props[k]
    ensures r["main"] == Str(if web then WebEntryPath else EntryPath)
    ensures r["scripts"] == Obj(Strings(Scripts(web)))
    ensures r["jest"] == JestConfig
    ensures r["dependencies"] == MergedDependencies(props, "dependencies", DefaultDependencies)
    ensures r["devDependencies"] == MergedDependencies(props, "devDependencies", DefaultDevDependencies)
  {
    Edited(props, Str(if web then WebEntryPath else EntryPath), Obj(Strings(Scripts(web))),
           DefaultDependencies, DefaultDevDependencies)
  }

  /** What becomes of the whole parsed document. An object is edited as above. An
      array accepts the assignments as named properties that JSON.stringify drops,
      so it is written back unchanged. On null or a primitive the first assignment
      (or, outside strict mode, `Object.assign(undefined, …)`) throws a TypeError. */
  function TransformDocument(doc: Json, web: bool): (r: Result<Json>)
    ensures r.Ok? <==> doc.Obj? || doc.Arr?
    ensures r.Err? ==> r.error == TypeError
    ensures doc.Obj? ==> r == Ok(Obj(Transform(doc.props, web)))
    ensures doc.Obj? ==> r.value.Obj? && r.value.props.Keys == doc.props.Keys + OwnedKeys
    ensures doc.Arr? ==> r.value == doc
  {
    match doc
    case Obj(props) => Ok(Obj(Transform(props, web)))
    case Arr(_) => Ok(doc)
    case _ => Err(TypeError)
  }

  /** Running the edits a second time changes nothing: defaults already merged in
      stay merged, and the owned keys get the same values again. */
  lemma TransformIdempotent(props: map<string, Json>, web: bool)
    ensures Transform(Transform(props, web), web) == Transform(props, web)
  {
    EditedIdempotent(props, Str(if web then WebEntryPath else EntryPath), Obj(Strings(Scripts(web))),
                     DefaultDependencies, DefaultDevDependencies);
  }

  lemma {:induction false} EditedIdempotent(props: map<string, Json>, main: Json, scripts: Json,
                                           dependencies: map<string, string>, devDependencies: map<string, string>)
    ensures var once := Edited(props, main, scripts, dependencies, devDependencies);
            Edited(once, main, scripts, dependencies, devDependencies) == once
  {
    var once := Edited(props, main, scripts, dependencies, devDependencies);
    var twice := Edited(once, main, scripts, dependencies, devDependencies);
    MergeIdempotent(props, "dependencies", dependencies, once);
    MergeIdempotent(props, "devDependencies", devDependencies, once);
    assert twice.Keys == once.Keys;
    forall k | k in once ensures twice[k] == once[k] {
    }
  }

  /** Merging the same defaults into an already merged map is a no-op. */
  lemma {:induction false} MergeIdempotent(props: map<string, Json>, key: string, defaults: map<string, string>, once: map<string, Json>)
    requires key in once && once[key] == MergedDependencies(props, key, defaults)
    ensures MergedDependencies(once, key, defaults) == once[key]
  {
    var m := once[key];
    if m.Obj? {
      var again := MergedDependencies(once, key, defaults);
      assert again.props.Keys == m.props.Keys;
      forall k | k in m.props ensures again.props[k] == m.props[k] {
      }
    }
  }

  /** The parsed package.json object, which lines 86-119 edit in place. */
  class AppPackage {
    var props: map<string, Json>

    constructor (props: map<string, Json>)
      ensures this.props == props
    {
      this.props := props;
    }

    /** `appPackage[key] = value` */
    method Set(key: string, value: Json)
      modifies this
      ensures props == old(props)[key := value]
    {
      props := props[key := value];
    }

    /** `!appPackage[key]` */
    method IsFalsy(key: string) returns (b: bool)
      ensures b <==> key !in props || !Truthy(props[key])
    {
      b := key !in props || !Truthy(props[key]);
    }

    /** `Object.assign(appPackage[key], source)`; the property must hold a non-null value. */
    method AssignInto(key: string, source: map<string, Json>)
      requires key in props && props[key] != Null
      modifies this
      ensures props == old(props)[key := Assign(old(props)[key], source)]
    {
      var target := props[key];
      if target.Obj? {
        props := props[key := Obj(target.props + source)];
      }
    }
  }

  /** Lines 86-119 on whatever JSON.parse returned: an object gets the edits in
      place, an array goes through unchanged, anything else throws. */
  method EditDocument(doc: Json, web: bool) returns (r: Result<Json>)
    ensures r == TransformDocument(doc, web)
  {
    match doc {
      case Obj(props) =>
        var edited := EditObject(props, web);
        r := Ok(Obj(edited));
      case Arr(_) =>
        r := Ok(doc);
      case _ =>
        r := Err(TypeError);
    }
  }

  /** Lines 86-119 on a parsed object: wrap it, edit it in place, read it back. */
  method EditObject(props: map<string, Json>, web: bool) returns (edited: map<string, Json>)
    ensures edited == Transform(props, web)
  {
    var pkg := new AppPackage(props);
    Customize(pkg, web);
    edited := pkg.props;
  }

  /** Lines 86-119, statement by statement, on the parsed object. */
  method Customize(pkg: AppPackage, web: bool)
    modifies pkg
    ensures pkg.props == Transform(old(pkg.props), web)
  {
    EditInPlace(pkg, web, Str(EntryPath), Strings(BaseScripts), Str(WebEntryPath), Strings(WebScripts),
                DefaultDependencies, DefaultDevDependencies);
    ScriptsAsJson(web);
  }

  lemma ScriptsAsJson(web: bool)
    ensures Obj(Strings(Scripts(web))) == if web then Obj(Strings(BaseScripts) + Strings(WebScripts)) else Obj(Strings(BaseScripts))
  {
    if web {
      StringsUnion(BaseScripts, WebScripts);
    }
  }

  /** The statements of lines 86-119 with the script's constants as parameters. */
  method EditInPlace(pkg: AppPackage, web: bool, main: Json, scripts: map<string, Json>,
                     webMain: Json, webScripts: map<string, Json>,
                     dependencies: map<string, string>, devDependencies: map<string, string>)
    modifies pkg
    ensures pkg.props == Edited(old(pkg.props), if web then webMain else main,
                                if web then Obj(scripts + webScripts) else Obj(scripts),
                                dependencies, devDependencies)
  {
    ghost var before := pkg.props;
    SetEntryAndScripts(pkg, web, main, scripts, webMain, webScripts);
    ghost var edited := pkg.props;
    assert Falsy(edited, "dependencies") == Falsy(before, "dependencies");
    assert Falsy(edited, "devDependencies") == Falsy(before, "devDependencies");
    MergeDefaults(pkg, dependencies, devDependencies);
  }

  /** Lines 86-106: `main`, `scripts` and `jest` overwritten. */
  method SetEntryAndScripts(pkg: AppPackage, web: bool, main: Json, scripts: map<string, Json>,
                            webMain: Json, webScripts: map<string, Json>)
    modifies pkg
    ensures pkg.props == old(pkg.props)["main" := if web then webMain else main]
                                       ["scripts" := if web then Obj(scripts + webScripts) else Obj(scripts)]
                                       ["jest" := JestConfig]
  {
    ghost var before := pkg.props;
    pkg.Set("main", main);
    pkg.Set("scripts", Obj(scripts));
    if web {
      pkg.Set("main", webMain);
      assert pkg.props["scripts"] == Obj(scripts);
      pkg.AssignInto("scripts", webScripts);
      assert Assign(Obj(scripts), webScripts) == Obj(scripts + webScripts);
      UpdatesOverwritten(before, "main", "scripts", main, Obj(scripts), webMain, Obj(scripts + webScripts));
    }
    pkg.Set("jest", JestConfig);
  }

  /** Lines 108-119: each dependency map is created empty when falsy, then the
      defaults are merged in. */
  method MergeDefaults(pkg: AppPackage, dependencies: map<string, string>, devDependencies: map<string, string>)
    modifies pkg
    ensures pkg.props == old(pkg.props)["dependencies" := MergedDependencies(old(pkg.props), "dependencies", dependencies)]
                                       ["devDependencies" := MergedDependencies(old(pkg.props), "devDependencies", devDependencies)]
  {
    ghost var before := pkg.props;
    EnsureObject(pkg, "dependencies");
    EnsureObject(pkg, "devDependencies");
    ghost var ensured := pkg.props;
    ghost var deps := Assign(ensured["dependencies"], Strings(dependencies));
    ghost var devDeps := Assign(ensured["devDependencies"], Strings(devDependencies));
    assert deps == MergedDependencies(before, "dependencies", dependencies);
    assert devDeps == MergedDependencies(before, "devDependencies", devDependencies);
    pkg.AssignInto("dependencies", Strings(dependencies));
    pkg.AssignInto("devDependencies", Strings(devDependencies));
    UpdatesOverwritten(before, "dependencies", "devDependencies",
                       ensured["dependencies"], ensured["devDependencies"], deps, devDeps);
  }

  /** `if (!appPackage[key]) { appPackage[key] = {}; }` */
  method EnsureObject(pkg: AppPackage, key: string)
    modifies pkg
    ensures key in pkg.props && pkg.props[key] != Null
    ensures pkg.props == old(pkg.props)[key := if Falsy(old(pkg.props), key) then Obj(map[]) else old(pkg.props)[key]]
  {
    var missing := pkg.IsFalsy(key);
    if missing {
      pkg.Set(key, Obj(map[]));
    }
  }

  lemma UpdatesOverwritten<K, V>(m: map<K, V>, a: K, b: K, x: V, y: V, z: V, w: V)
    requires a != b
    ensures m[a := x][b := y][a := z][b := w] == m[a := z][b := w]
  {
  }
}
