/** Lists without repetitions. */
module Sequences {

  predicate NoRepeats<T(==)>(s: seq<T>) {
    forall i, j :: 0 <= i < j < |s| ==> s[i] != s[j]
  }

  /** A list of exactly the members of a set, each once, is as long as the set is large. */
  lemma {:induction false} ListingLength<T>(s: seq<T>, members: set<T>)
    requires NoRepeats(s) && forall x :: x in s <==> x in members
    ensures |s| == |members|
  {
    if s == [] {
      assert members == {};
    } else {
      var init, last := s[..|s| - 1], s[|s| - 1];
      assert s == init + [last];
      forall x ensures x in init <==> x in members - {last} {
        if x in init { assert x in s; }
      }
      ListingLength(init, members - {last});
    }
  }
}
