/** The npm version gate of init.js lines 50-74, as the code computes it: the
    "major" and "minor" numbers are `parseInt` of the first and second
    CHARACTERS of the trimmed `npm --version` output. */
module NpmGate {
  import opened Common

  /** A number as `parseInt` returns it: NaN, or an integer. */
  datatype JsNumber = NaN | Int(value: int)

  /** `s[i]` in JavaScript: the character, or `undefined` past the end. */
  function CharAt(s: string, i: nat): (r: Option<char>)
    ensures r.Some? <==> i < |s|
    ensures r.Some? ==> r.value == s[i]
  {
    if i < |s| then Some(s[i]) else None
  }

  /** `parseInt(c, 10)` of a one-character string (or of `undefined`, read as the
      string "undefined"): a decimal digit gives its value, anything else NaN. */
  function ParseIntChar(c: Option<char>): (r: JsNumber)
    ensures r.Int? <==> c.Some? && '0' <= c.value <= '9'
    ensures r.Int? ==> 0 <= r.value <= 9 && r.value == c.value as int - '0' as int
  {
    if c.Some? && '0' <= c.value <= '9' then Int(c.value as int - '0' as int) else NaN
  }

  /** `a === n` for a number `a`: NaN equals nothing. */
  predicate StrictEquals(a: JsNumber, n: int) {
    a.Int? && a.value == n
  }

  /** `a < n` for a number `a`: every comparison with NaN is false. */
  predicate LessThan(a: JsNumber, n: int) {
    a.Int? && a.value < n
  }

  /** Whether the script prints the "npm >= 5.0.0 and < 5.7.0" banner and calls
      `process.exit(1)`. With yarn the version is never queried. */
  function MustExit(useYarn: bool, npmVersion: string): (r: bool)
    ensures r <==> !useYarn && |npmVersion| >= 2 && npmVersion[0] == '5' && '0' <= npmVersion[1] <= '6'
  {
    if useYarn then false
    else
      var major := ParseIntChar(CharAt(npmVersion, 0));
      var minor := ParseIntChar(CharAt(npmVersion, 1));
      StrictEquals(major, 5) && LessThan(minor, 7)
  }

  /** A version string whose second character is the dot of `major.minor` never
      trips the gate, whatever its digits: npm 5.6.0 passes, as does 5.0.0. */
  lemma {:induction false} DottedVersionNeverExits(useYarn: bool, npmVersion: string)
    requires |npmVersion| >= 2 && npmVersion[1] == '.'
    ensures !MustExit(useYarn, npmVersion)
  {
  }

  /** The gate does fire on a two-digit version starting with 5 and a digit below 7. */
  lemma FiftyFiresGate()
    ensures MustExit(false, "50.1.0") && !MustExit(true, "50.1.0") && !MustExit(false, "5.6.0")
  {
  }
}
