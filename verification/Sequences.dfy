/**
 Sequences.
*/
module Sequences {
  // No element occurs twice.
  predicate Distinct<T(==)>(s: seq<T>) {
    forall i, j :: 0 <= i < j < |s| ==> s[i] != s[j]
  }
}
