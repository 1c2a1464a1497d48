/** Facts about finite sets, and about the members of sequences, that several modules count with. */
module Sets {

  lemma {:induction false} SubsetSize<T>(small: set<T>, large: set<T>)
    requires small <= large
    ensures |small| <= |large|
    decreases small
  {
    if small != {} {
      var x :| x in small;
      SubsetSize(small - {x}, large - {x});
    }
  }

  /** The pigeonhole principle. */
  lemma SameSizeSubset<T>(small: set<T>, large: set<T>)
    requires small <= large && |small| == |large|
    ensures small == large
  {
    if x :| x in large && x !in small {
      SubsetSize(small, large - {x});
    }
  }

  lemma SomeNumber(s: set<int>)
    ensures s == {} || exists n :: n in s
  {
    if !exists n :: n in s {
      assert s == {};
    }
  }
  function Members(ids: seq<string>): set<string> {
    set x | x in ids
  }

  predicate Distinct(ids: seq<string>) {
    forall i, j | 0 <= i < j < |ids| :: ids[i] != ids[j]
  }

  lemma OneMoreMember(ids: seq<string>, n: nat)
    requires n < |ids|
    ensures Members(ids[..n + 1]) == Members(ids[..n]) + {ids[n]}
    ensures Distinct(ids) ==> ids[n] !in Members(ids[..n])
  {
    assert ids[..n + 1] == ids[..n] + [ids[n]];
  }

  lemma {:induction false} DistinctMembers(ids: seq<string>)
    requires Distinct(ids)
    ensures |Members(ids)| == |ids|
    decreases |ids|
  {
    if ids != [] {
      var n := |ids| - 1;
      DistinctMembers(ids[..n]);
      OneMoreMember(ids, n);
      assert ids[..n + 1] == ids;
    }
  }
}
