/** Sequence vocabulary shared by the modules: held values, distinctness, index ranges. */
module Seqs {

  /** The set of values a sequence holds. */
  function Elements<T>(s: seq<T>): set<T> {
    set x | x in s
  }

  predicate Distinct<T(==)>(s: seq<T>) {
    forall i, j :: 0 <= i < j < |s| ==> s[i] != s[j]
  }

  /** Every index of `idx` is a position of a vector of length `n`. */
  predicate IndicesBelow(idx: seq<nat>, n: nat) {
    forall i :: 0 <= i < |idx| ==> idx[i] < n
  }

  /** Only the empty sequence holds no values. */
  lemma ElementsEmpty<T>(s: seq<T>)
    ensures Elements(s) == {} <==> s == []
  {
    if s != [] {
      assert s[0] in Elements(s);
    }
  }
}
