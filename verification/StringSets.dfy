/** A list of strings as a set, used by several models. */
module StringSets {
  function AsSet(s: seq<string>): set<string> {
    set x | x in s
  }
}
