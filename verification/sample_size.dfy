/** `restrict_samplesize(n, *arrays)` of inference/utils.py: every array that
    is not `None` is cut to `a[:n]`; `None` entries pass through. */
module SampleSize {
  import opened Wrappers
  import opened Numbers
  import opened Permutations
  import opened Shuffle

  /** Where Python's slice `a[:stop]` ends on a sequence of length `len`:
      `None` keeps everything, a negative stop counts from the end. */
  function SliceStop(stop: Option<int>, len: nat): (r: nat)
    ensures r <= len
    ensures stop.None? ==> r == len
    ensures stop.Some? && stop.value >= 0 ==> r == Min(stop.value, len)
    ensures stop.Some? && stop.value < 0 ==> len - r == Min(-stop.value, len)
  {
    match stop
    case None => len
    case Some(s) =>
      if s >= 0 then Min(s, len)
      else if len + s >= 0 then len + s
      else 0
  }

  function RestrictSampleSize<E>(n: Option<int>, arrays: seq<Option<seq<E>>>): (r: seq<Option<seq<E>>>)
    ensures |r| == |arrays|
    ensures forall k :: 0 <= k < |arrays| ==> (r[k].None? <==> arrays[k].None?)
    ensures forall k :: 0 <= k < |arrays| && arrays[k].Some? ==>
      && |r[k].value| <= |arrays[k].value|
      && r[k].value == arrays[k].value[..|r[k].value|]
    ensures forall k :: 0 <= k < |arrays| && arrays[k].Some? && n.Some? && n.value >= 0 ==>
      |r[k].value| == Min(n.value, |arrays[k].value|)
    ensures forall k :: 0 <= k < |arrays| && arrays[k].Some? && n.Some? && n.value < 0 ==>
      |r[k].value| == (if |arrays[k].value| + n.value >= 0 then |arrays[k].value| + n.value else 0)
    ensures forall k :: 0 <= k < |arrays| && arrays[k].Some? && n.None? ==> |r[k].value| == |arrays[k].value|
  {
    seq(|arrays|, k requires 0 <= k < |arrays| =>
      match arrays[k]
      case None => None
      case Some(a) => Some(a[..SliceStop(n, |a|)]))
  }

  /** Restricting to `m` and then to `m'` samples is restricting to the smaller of the two. */
  lemma RestrictTwice<E>(m: nat, m': nat, arrays: seq<Option<seq<E>>>)
    ensures RestrictSampleSize(Some(m'), RestrictSampleSize(Some(m), arrays))
         == RestrictSampleSize(Some(Min(m, m')), arrays)
  {
    var once := RestrictSampleSize(Some(m), arrays);
    var twice := RestrictSampleSize(Some(m'), once);
    var direct := RestrictSampleSize(Some(Min(m, m')), arrays);
    forall k | 0 <= k < |arrays|
      ensures twice[k] == direct[k]
    {
      if arrays[k].Some? {
        var a := arrays[k].value;
        assert twice[k].value == a[..Min(m', Min(m, |a|))];
      }
    }
  }

  /** Restricting shuffled arrays to `m` samples draws the same random
      subsample from every array: the rows `perm[..m]`, in that order. */
  lemma ShuffleThenRestrict<E>(arrays: seq<Option<seq<E>>>, perm: seq<nat>, m: nat, k: nat)
    requires SampleCount(arrays).Some? ==> IsPermutation(perm, SampleCount(arrays).value)
    requires ShuffleArrays(arrays, perm).Success?
    requires k < |arrays| && arrays[k].Some?
    ensures RestrictSampleSize(Some(m), ShuffleArrays(arrays, perm).value)[k].value
         == Reindex(arrays[k].value, perm[..Min(m, |perm|)])
  {
  }
}
