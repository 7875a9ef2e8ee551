/**
 * The ECMAScript regular-expression engine, left uninterpreted.
 *
 * The core only ever asks four things of a `RegExp`: whether `new RegExp(source, flags)`
 * throws (and with which message), how many entries `s.match(re)` returns (0 when it
 * returns `null`), and what `s.replace(re, replacement)` gives. An `Engine` value supplies
 * those four answers; every operation of the model takes the engine as a parameter, so
 * every lemma holds for every engine.
 */
module RegexOracle {

  /** A regular expression as the code builds it: `new RegExp(source, flags)`. */
  datatype Regex = Regex(source: string, flags: string)

  datatype Engine = Engine(
    compiles: (string, string) -> bool,
    compileError: (string, string) -> string,
    matchCount: (Regex, string) -> nat,
    replaceAll: (Regex, string, string) -> string)

  /** The one fact the code relies on: a pattern with no match leaves the text unchanged under `replace`. */
  ghost predicate Sound(e: Engine) {
    forall re: Regex, s: string, r: string :: e.matchCount(re, s) == 0 ==> e.replaceAll(re, s, r) == s
  }

  /** `s.match(re) !== null`. */
  predicate Matches(e: Engine, re: Regex, s: string) {
    e.matchCount(re, s) > 0
  }

  /** `flags || 'g'`: an absent or empty flag string means global matching. */
  function FlagsOrGlobal(flags: string): (f: string)
    ensures f != ""
    ensures flags != "" ==> f == flags
  {
    if flags == "" then "g" else flags
  }
}
