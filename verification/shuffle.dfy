/** `shuffle(*arrays)` of inference/utils.py: one random permutation of the
    samples, drawn when the first array that is not `None` is met, applied to
    every array along its first axis; `None` entries pass through. The random
    draw is a parameter `perm` here. */
module Shuffle {
  import opened Wrappers
  import opened Permutations

  /** The `assert a.shape[0] == n_samples` that fails for array `index`. */
  datatype ShuffleError = SampleCountMismatch(index: nat, expected: nat, found: nat)

  /** Array `k` is the first one that is not `None`. */
  predicate IsFirstPresent<E>(arrays: seq<Option<seq<E>>>, k: int) {
    0 <= k < |arrays| && arrays[k].Some? && forall l :: 0 <= l < k ==> arrays[l].None?
  }

  /** Position of the first array that is not `None`, if any. */
  function FirstPresent<E>(arrays: seq<Option<seq<E>>>): (r: Option<nat>)
    ensures r.None? ==> forall k :: 0 <= k < |arrays| ==> arrays[k].None?
    ensures r.Some? ==> IsFirstPresent(arrays, r.value)
  {
    if |arrays| == 0 then None
    else if arrays[0].Some? then Some(0)
    else match FirstPresent(arrays[1..])
      case None => None
      case Some(k) => Some(k + 1)
  }

  /** `n_samples`: the first dimension of the first array that is not `None`. */
  function SampleCount<E>(arrays: seq<Option<seq<E>>>): (r: Option<nat>)
    ensures r.None? <==> forall k :: 0 <= k < |arrays| ==> arrays[k].None?
    ensures r.Some? ==> exists k :: IsFirstPresent(arrays, k) && |arrays[k].value| == r.value
  {
    match FirstPresent(arrays)
    case None => None
    case Some(k) => Some(|arrays[k].value|)
  }

  /** Every array that is not `None` has `n` samples. */
  predicate AllHaveSampleCount<E>(arrays: seq<Option<seq<E>>>, n: nat) {
    forall k :: 0 <= k < |arrays| && arrays[k].Some? ==> |arrays[k].value| == n
  }

  /** All arrays that are not `None` agree on their number of samples. */
  predicate ConsistentSampleCounts<E>(arrays: seq<Option<seq<E>>>) {
    forall k, l :: 0 <= k < |arrays| && 0 <= l < |arrays| && arrays[k].Some? && arrays[l].Some? ==>
      |arrays[k].value| == |arrays[l].value|
  }

  /** Array `k` is the first one that is not `None` and does not have `n` samples. */
  predicate IsFirstMismatch<E>(arrays: seq<Option<seq<E>>>, n: nat, k: int) {
    && 0 <= k < |arrays|
    && arrays[k].Some? && |arrays[k].value| != n
    && forall l :: 0 <= l < k && arrays[l].Some? ==> |arrays[l].value| == n
  }

  /** `out` is `arrays` with every array that is not `None` reindexed by the
      one permutation `perm` and every `None` kept in place. */
  ghost predicate ShuffledBy<E>(arrays: seq<Option<seq<E>>>, out: seq<Option<seq<E>>>, perm: seq<nat>) {
    && |out| == |arrays|
    && forall k :: 0 <= k < |arrays| ==>
         && (out[k].None? <==> arrays[k].None?)
         && (arrays[k].Some? ==>
               && IsPermutation(perm, |arrays[k].value|)
               && |out[k].value| == |arrays[k].value|
               && forall j :: 0 <= j < |perm| ==> out[k].value[j] == arrays[k].value[perm[j]])
  }

  /** The loop body of `shuffle` once `n_samples` is known, applied to the
      arrays from the one at position `offset` of the caller's list onwards. */
  function ShuffleEach<E>(arrays: seq<Option<seq<E>>>, perm: seq<nat>, n: nat, offset: nat)
    : (r: Result<seq<Option<seq<E>>>, ShuffleError>)
    requires IsPermutation(perm, n)
    ensures r.Success? <==> AllHaveSampleCount(arrays, n)
    ensures r.Success? ==> ShuffledBy(arrays, r.value, perm)
    ensures r.Failure? ==> r.error.index >= offset && IsFirstMismatch(arrays, n, r.error.index - offset)
    ensures r.Failure? ==> r.error.expected == n && r.error.found == |arrays[r.error.index - offset].value|
    decreases |arrays|
  {
    if |arrays| == 0 then Success([])
    else
      match arrays[0]
      case None =>
        var rest :- ShuffleEach(arrays[1..], perm, n, offset + 1);
        Success([None] + rest)
      case Some(a) =>
        if |a| != n then Failure(SampleCountMismatch(offset, n, |a|))
        else
          var rest :- ShuffleEach(arrays[1..], perm, n, offset + 1);
          Success([Some(Reindex(a, perm))] + rest)
  }

  /** `shuffle(*arrays)` with the random permutation supplied as `perm`: it
      must be a permutation of the first dimension of the first array that is
      not `None` (no permutation is drawn when every array is `None`). */
  function ShuffleArrays<E>(arrays: seq<Option<seq<E>>>, perm: seq<nat>)
    : (r: Result<seq<Option<seq<E>>>, ShuffleError>)
    requires SampleCount(arrays).Some? ==> IsPermutation(perm, SampleCount(arrays).value)
    ensures r.Success? <==> ConsistentSampleCounts(arrays)
    ensures r.Success? ==> ShuffledBy(arrays, r.value, perm)
    ensures r.Failure? ==>
      && SampleCount(arrays).Some?
      && IsFirstMismatch(arrays, SampleCount(arrays).value, r.error.index)
      && r.error.expected == SampleCount(arrays).value
      && r.error.found == |arrays[r.error.index].value|
  {
    match SampleCount(arrays)
    case None => Success(arrays)
    case Some(n) =>
      ConsistentIffFirstCount(arrays);
      ShuffleEach(arrays, perm, n, 0)
  }

  /** Agreeing with the first array that is not `None` is agreeing with every one. */
  lemma ConsistentIffFirstCount<E>(arrays: seq<Option<seq<E>>>)
    requires SampleCount(arrays).Some?
    ensures ConsistentSampleCounts(arrays) <==> AllHaveSampleCount(arrays, SampleCount(arrays).value)
  {
  }

  /** Each shuffled array holds exactly the rows of its input, each as often. */
  lemma ShufflePermutesRows<E>(arrays: seq<Option<seq<E>>>, perm: seq<nat>, k: nat)
    requires SampleCount(arrays).Some? ==> IsPermutation(perm, SampleCount(arrays).value)
    requires ShuffleArrays(arrays, perm).Success?
    requires k < |arrays| && arrays[k].Some?
    ensures multiset(ShuffleArrays(arrays, perm).value[k].value) == multiset(arrays[k].value)
  {
    var a := arrays[k].value;
    var out := ShuffleArrays(arrays, perm).value[k].value;
    assert out == Reindex(a, perm);
    ReindexPreservesMultiset(a, perm);
  }

  /** Rows that sit side by side in two input arrays still sit side by side,
      at one common position, after the shuffle. */
  lemma ShuffleKeepsRowsAligned<E>(arrays: seq<Option<seq<E>>>, perm: seq<nat>, k1: nat, k2: nat, row: nat)
      returns (j: nat)
    requires SampleCount(arrays).Some? ==> IsPermutation(perm, SampleCount(arrays).value)
    requires ShuffleArrays(arrays, perm).Success?
    requires k1 < |arrays| && arrays[k1].Some? && k2 < |arrays| && arrays[k2].Some?
    requires row < |arrays[k1].value|
    ensures j < |arrays[k1].value| && j < |arrays[k2].value|
    ensures ShuffleArrays(arrays, perm).value[k1].value[j] == arrays[k1].value[row]
    ensures ShuffleArrays(arrays, perm).value[k2].value[j] == arrays[k2].value[row]
  {
    PermutationIsOnto(perm, |arrays[k1].value|);
    j := IndexOf(perm, row);
  }
}
