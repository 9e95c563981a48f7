/** Sequences without repetition. */
module Sequences {

  ghost predicate Distinct<T>(l: seq<T>) {
    forall i, j :: 0 <= i < j < |l| ==> l[i] != l[j]
  }

  /** They are no longer than any set that holds their elements. */
  lemma {:induction false} DistinctFits<T>(l: seq<T>, keys: set<T>)
    requires forall i {:trigger l[i]} :: 0 <= i < |l| ==> l[i] in keys
    requires Distinct(l)
    ensures |l| <= |keys|
    decreases |l|
  {
    if l != [] {
      var last := l[|l| - 1];
      DistinctFits(l[..|l| - 1], keys - {last});
    }
  }
}
