/** Small shared vocabulary: optional values and facts about sequences that several components use. */
module Prelude {
  datatype Option<+T> = None | Some(value: T)

  function Min(a: int, b: int): int {
    if a <= b then a else b
  }

  function Max(a: int, b: int): int {
    if a >= b then a else b
  }

  /** No value occurs twice. */
  ghost predicate NoDuplicates<T>(s: seq<T>) {
    forall i, j :: 0 <= i < j < |s| ==> s[i] != s[j]
  }

  /** `kept` are the values of `all` at these places, in order. */
  ghost predicate Subsequence<T>(kept: seq<T>, all: seq<T>, places: seq<nat>) {
    && |places| == |kept|
    && (forall k :: 0 <= k < |places| ==> places[k] < |all| && kept[k] == all[places[k]])
    && (forall j, k :: 0 <= j < k < |places| ==> places[j] < places[k])
  }

  lemma SubsequenceGrows<T>(kept: seq<T>, all: seq<T>, places: seq<nat>, x: T)
    requires Subsequence(kept, all, places)
    ensures Subsequence(kept, all + [x], places) && Subsequence(kept + [x], all + [x], places + [|all|])
  {}

  function Shifted(places: seq<nat>): (r: seq<nat>)
    ensures |r| == |places| && forall k :: 0 <= k < |places| ==> r[k] == places[k] + 1
  {
    seq(|places|, k requires 0 <= k < |places| => places[k] + 1)
  }

  lemma SubsequenceBehind<T>(kept: seq<T>, all: seq<T>, places: seq<nat>, x: T)
    requires Subsequence(kept, all, places)
    ensures Subsequence(kept, [x] + all, Shifted(places)) && Subsequence([x] + kept, [x] + all, [0] + Shifted(places))
  {}
}
