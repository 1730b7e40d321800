/** Definitions and facts about sequences that more than one part of the model uses. */
module Basics {
  datatype Option<+T> = None | Some(value: T)

  function Max(a: int, b: int): int {
    if a < b then b else a
  }

  predicate NoDup<T(==)>(s: seq<T>) {
    forall i, j :: 0 <= i < j < |s| ==> s[i] != s[j]
  }

  lemma SliceOfSlice<T>(r: seq<T>, at: nat, n: nat, o: nat, k: nat)
    requires at + n <= |r| && o + k <= n
    ensures r[at..at + n][o..o + k] == r[at + o..at + o + k]
  {
    var s, t := r[at..at + n][o..o + k], r[at + o..at + o + k];
    forall x | 0 <= x < k
      ensures s[x] == t[x]
    {
      assert s[x] == r[at..at + n][o + x];
    }
  }
}
