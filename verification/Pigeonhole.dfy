/** Distinct numbers below a bound. */
module Pigeonhole {
  ghost predicate Distinct(list: seq<nat>) {
    forall i, j :: 0 <= i < j < |list| ==> list[i] != list[j]
  }

  /** There are at most n distinct numbers below n. */
  lemma {:induction false} DistinctBound(list: seq<nat>, n: nat)
    requires Distinct(list) && forall i :: 0 <= i < |list| ==> list[i] < n
    ensures |list| <= n
    decreases n
  {
    assert list != [] ==> list[0] < n;
    if n > 0 {
      if k :| 0 <= k < |list| && list[k] == n - 1 {
        var rest := list[..k] + list[k + 1..];
        forall i | 0 <= i < |rest| ensures rest[i] < n - 1 {
          assert rest[i] == list[if i < k then i else i + 1];
        }
        forall i, j | 0 <= i < j < |rest| ensures rest[i] != rest[j] {
          assert rest[i] == list[if i < k then i else i + 1];
          assert rest[j] == list[if j < k then j else j + 1];
        }
        DistinctBound(rest, n - 1);
      } else {
        DistinctBound(list, n - 1);
      }
    }
  }
}
