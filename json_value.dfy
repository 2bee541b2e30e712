/** Parsed JSON values and the two pieces of JavaScript semantics the script
    relies on when it edits package.json: truthiness and `Object.assign`. */
module JsonValue {

  /** A value as JSON.parse produces it. */
  datatype Json =
    | Null
    | Bool(b: bool)
    | Num(n: real)
    | Str(s: string)
    | Arr(items: seq<Json>)
    | Obj(props: map<string, Json>)

  /** JavaScript truthiness of a parsed value: null, false, 0 and "" are falsy,
      every array and object is truthy. */
  predicate Truthy(v: Json) {
    match v
    case Null => false
    case Bool(b) => b
    case Num(n) => n != 0.0
    case Str(s) => s != ""
    case Arr(_) => true
    case Obj(_) => true
  }

  /** A property is missing (reads as `undefined`) or holds a falsy value: `!obj[key]`. */
  predicate Falsy(props: map<string, Json>, key: string) {
    key !in props || !Truthy(props[key])
  }

  /** An object literal whose properties are all strings, as a JSON object body. */
  function Strings(m: map<string, string>): (r: map<string, Json>)
    ensures r.Keys == m.Keys
    ensures forall k :: k in m ==> r[k] == Str(m[k])
  {
    map k | k in m :: Str(m[k])
  }

  /** Converting a union of string maps converts each side. */
  lemma StringsUnion(a: map<string, string>, b: map<string, string>)
    ensures Strings(a + b) == Strings(a) + Strings(b)
  {
    assert forall k :: k in a + b ==> Strings(a + b)[k] == (Strings(a) + Strings(b))[k];
  }

  /** `Object.assign(target, source)`, seen through what JSON.stringify later writes.
      An object target receives every source property, the source winning on a
      shared key. A non-null primitive target is boxed into a temporary wrapper that
      receives the properties and is thrown away, and an array target gains
      named properties that JSON.stringify does not write: in both cases the
      written value is unchanged. This holds for the sources the script passes,
      none of whose keys is an array index; a source key such as "0" would
      overwrite an array element, which is not modelled. A null target makes
      Object.assign throw, which is why callers must rule it out. */
  function Assign(target: Json, source: map<string, Json>): (r: Json)
    requires target != Null
    ensures target.Obj? <==> r.Obj?
    ensures target.Obj? ==> r.props.Keys == target.props.Keys + source.Keys
    ensures target.Obj? ==> forall k :: k in source ==> r.props[k] == source[k]
    ensures target.Obj? ==> forall k :: k in target.props && k !in source ==> r.props[k] == target.props[k]
    ensures !target.Obj? ==> r == target
  {
    if target.Obj? then Obj(target.props + source) else target
  }
}
