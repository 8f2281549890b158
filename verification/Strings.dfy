/** Lists of names, as sets and without repetition. */
module Strings {
  function Elements(s: seq<string>): set<string> {
    set x | x in s
  }

  ghost predicate NoRepeats(s: seq<string>) {
    forall i, j :: 0 <= i < j < |s| ==> s[i] != s[j]
  }
}
