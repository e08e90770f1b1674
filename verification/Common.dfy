/** Shared value types and sequence vocabulary. */
module Common {

  datatype Option<+T> = None | Some(value: T)

  /** No element occurs twice. */
  predicate NoDuplicates<T(==)>(s: seq<T>) {
    forall i, j :: 0 <= i < j < |s| ==> s[i] != s[j]
  }

  /** `small` can be obtained from `big` by deleting elements, keeping the order of the others. */
  ghost predicate Subsequence<T>(small: seq<T>, big: seq<T>)
    decreases |big|
  {
    if big == [] then
      small == []
    else
      || Subsequence(small, big[..|big| - 1])
      || (small != [] && small[|small| - 1] == big[|big| - 1]
          && Subsequence(small[..|small| - 1], big[..|big| - 1]))
  }

  lemma SubsequenceSkip<T>(small: seq<T>, big: seq<T>, x: T)
    requires Subsequence(small, big)
    ensures Subsequence(small, big + [x])
  {
  }

  lemma SubsequenceTake<T>(small: seq<T>, big: seq<T>, x: T)
    requires Subsequence(small, big)
    ensures Subsequence(small + [x], big + [x])
  {
  }
}
