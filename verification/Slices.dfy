/** A fact about sequences that several parts share. */
module Slices {

  lemma {:induction false} SliceOfSlice<T>(s: seq<T>, from: nat, to: nat, lo: nat, hi: nat)
    requires from <= to <= |s| && lo <= hi <= to - from
    ensures s[from..to][lo..hi] == s[from + lo..from + hi]
  {
    forall i | 0 <= i < hi - lo
      ensures s[from..to][lo..hi][i] == s[from + lo..from + hi][i]
    {
      assert s[from..to][lo + i] == s[from + lo + i];
    }
  }
}
