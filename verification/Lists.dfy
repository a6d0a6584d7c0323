/** Vector idioms that several components share. */
module Lists {
  ghost predicate Distinct<T>(s: seq<T>) {
    forall i, j :: 0 <= i < j < |s| ==> s[i] != s[j]
  }

  /** `Vec::swap_remove`: the last element takes the freed place. */
  function SwapRemove<T>(s: seq<T>, index: nat): (r: seq<T>)
    requires index < |s|
    ensures |r| == |s| - 1
  {
    var last := |s| - 1;
    if index == last then s[..last] else s[..last][index := s[last]]
  }

  /** Every element but the removed one stays as often as it was there. */
  lemma SwapRemoveKeeps<T>(s: seq<T>, index: nat)
    requires index < |s|
    ensures multiset(SwapRemove(s, index)) == multiset(s) - multiset{s[index]}
  {
    var last := |s| - 1;
    assert s == s[..last] + [s[last]];
  }
}
