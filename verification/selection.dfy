/**
 * Choice of the predicted class: `probabilities.indices.maxByOrNull { probabilities[it] } ?: -1`.
 *
 * Kotlin's `maxByOrNull` takes the first element, then walks the rest and
 * replaces the current best only when the new key is strictly greater, so
 * the first index holding the maximum wins ties. The scores are modelled as
 * reals under their usual total order.
 */
module Selection {

  /** `k` holds a maximal score of `s` and no earlier index holds that score. */
  ghost predicate IsFirstMax(s: seq<real>, k: int) {
    && 0 <= k < |s|
    && (forall j :: 0 <= j < |s| ==> s[j] <= s[k])
    && (forall j :: 0 <= j < k ==> s[j] < s[k])
  }

  /** `IsFirstMax` restricted to the prefix `s[..n]`. */
  ghost predicate IsFirstMaxBelow(s: seq<real>, n: int, k: int) {
    && 0 <= k < n <= |s|
    && (forall j :: 0 <= j < n ==> s[j] <= s[k])
    && (forall j :: 0 <= j < k ==> s[j] < s[k])
  }

  /** The scan of `maxByOrNull` from index `i` on, with `best` the winner so far. */
  function MaxByFrom(s: seq<real>, best: nat, i: nat): (r: nat)
    requires IsFirstMaxBelow(s, i, best)
    ensures IsFirstMax(s, r)
    decreases |s| - i
  {
    if i == |s| then best
    else if s[best] < s[i] then MaxByFrom(s, i, i + 1)
    else MaxByFrom(s, best, i + 1)
  }

  /** The arg-max with its `?: -1` fallback for an empty score vector. */
  function ArgMax(s: seq<real>): (r: int)
    ensures r == -1 <==> |s| == 0
    ensures r != -1 ==> IsFirstMax(s, r)
  {
    if |s| == 0 then -1 else MaxByFrom(s, 0, 1)
  }

  /** `IsFirstMax` picks at most one index, so `ArgMax` is the only index meeting it. */
  lemma FirstMaxUnique(s: seq<real>, k: int)
    requires IsFirstMax(s, k)
    ensures ArgMax(s) == k
  {
  }
}
