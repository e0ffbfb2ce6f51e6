/** `balance_thetas(theta_sets_types, theta_sets_values)` of
    inference/utils.py: every (types, values) pair of parallel lists is
    repeated cyclically up to the length of the longest types list. The
    source overwrites the caller's lists in place; here it returns the new
    lists. Pairs come from Python's `zip`, which stops at the shorter of the
    two outer lists: lists beyond that point are returned untouched. */
module Thetas {
  import opened Wrappers
  import opened Numbers

  datatype BalanceError =
    | NoThetaSets                                          // `max` of an empty list
    | LengthMismatch(index: nat, types: nat, values: nat)  // `assert len(types) == len(values)`
    | EmptyThetaSet(index: nat)                            // `j % n_sets_before` with an empty list

  /** `n_sets`: the length of the longest list. */
  function MaxLength<T>(lists: seq<seq<T>>): (m: nat)
    requires |lists| > 0
    ensures forall i :: 0 <= i < |lists| ==> |lists[i]| <= m
    ensures exists i :: 0 <= i < |lists| && |lists[i]| == m
  {
    if |lists| == 1 then |lists[0]|
    else
      var rest := MaxLength(lists[1..]);
      if |lists[0]| >= rest then |lists[0]| else rest
  }

  /** `[s[j % len(s)] for j in range(n)]`. */
  function Cycle<X>(s: seq<X>, n: nat): (r: seq<X>)
    requires |s| > 0
    ensures CyclicExtension(r, s, n)
    ensures n >= |s| ==> r[..|s|] == s
  {
    var r := seq(n, j requires 0 <= j < n => s[j % |s|]);
    if n >= |s| then CyclicExtensionStartsWith(r, s, n); r else r
  }

  /** `out` has `n` entries and entry `j` is entry `j % |s|` of `s`. */
  ghost predicate CyclicExtension<X>(out: seq<X>, s: seq<X>, n: nat) {
    && |out| == n
    && (n > 0 ==> |s| > 0)
    && forall j :: 0 <= j < n ==> out[j] == s[j % |s|]
  }

  /** The pair passes the assertion and can be padded to `n` entries. */
  predicate PairOk<T, V>(types: seq<T>, values: seq<V>, n: nat) {
    |types| == |values| && (|types| == n || |types| > 0)
  }

  /** Pair `k` is the first of the zipped pairs that cannot be balanced. */
  predicate IsFirstBadPair<T, V>(types: seq<seq<T>>, values: seq<seq<V>>, n: nat, k: int) {
    && 0 <= k < |types| && k < |values|
    && !PairOk(types[k], values[k], n)
    && forall l :: 0 <= l < k ==> PairOk(types[l], values[l], n)
  }

  /** The error raised for a pair that cannot be balanced: the assertion is
      checked before the padding divides by the pair's length. */
  function PairError<T, V>(types: seq<T>, values: seq<V>, index: nat): BalanceError {
    if |types| != |values| then LengthMismatch(index, |types|, |values|) else EmptyThetaSet(index)
  }

  /** The loop of `balance_thetas` over the zipped pairs, from the pair at
      position `offset` of the caller's lists onwards. */
  function BalancePairs<T, V>(types: seq<seq<T>>, values: seq<seq<V>>, n: nat, offset: nat)
    : (r: Result<(seq<seq<T>>, seq<seq<V>>), BalanceError>)
    requires |types| == |values|
    requires forall k :: 0 <= k < |types| ==> |types[k]| <= n
    ensures r.Success? <==> forall k :: 0 <= k < |types| ==> PairOk(types[k], values[k], n)
    ensures r.Success? ==> |r.value.0| == |types| && |r.value.1| == |values|
    ensures r.Success? ==> forall k :: 0 <= k < |types| ==>
      CyclicExtension(r.value.0[k], types[k], n) && CyclicExtension(r.value.1[k], values[k], n)
    ensures r.Failure? ==>
      && !r.error.NoThetaSets?
      && r.error.index >= offset
      && IsFirstBadPair(types, values, n, r.error.index - offset)
      && r.error == PairError(types[r.error.index - offset], values[r.error.index - offset], r.error.index)
    decreases |types|
  {
    if |types| == 0 then Success(([], []))
    else
      var t, v := types[0], values[0];
      if |t| != |v| then Failure(LengthMismatch(offset, |t|, |v|))
      else if |t| == n then
        var rest :- BalancePairs(types[1..], values[1..], n, offset + 1);
        CycleOfFull(t);
        CycleOfFull(v);
        Success(([t] + rest.0, [v] + rest.1))
      else if |t| == 0 then Failure(EmptyThetaSet(offset))
      else
        var rest :- BalancePairs(types[1..], values[1..], n, offset + 1);
        Success(([Cycle(t, n)] + rest.0, [Cycle(v, n)] + rest.1))
  }

  /** `balance_thetas`: every zipped pair padded to the longest types list. */
  function BalanceThetas<T, V>(types: seq<seq<T>>, values: seq<seq<V>>)
    : (r: Result<(seq<seq<T>>, seq<seq<V>>), BalanceError>)
    ensures |types| == 0 ==> r == Failure(NoThetaSets)
    ensures r.Success? <==>
      |types| > 0 && forall i :: 0 <= i < |types| && i < |values| ==> PairOk(types[i], values[i], MaxLength(types))
    ensures r.Success? ==> |r.value.0| == |types| && |r.value.1| == |values|
    ensures r.Success? ==> forall i :: 0 <= i < |types| && i < |values| ==>
      && CyclicExtension(r.value.0[i], types[i], MaxLength(types))
      && CyclicExtension(r.value.1[i], values[i], MaxLength(types))
    ensures r.Success? ==> forall i :: |values| <= i < |types| ==> r.value.0[i] == types[i]
    ensures r.Success? ==> forall i :: |types| <= i < |values| ==> r.value.1[i] == values[i]
    ensures r.Failure? && |types| > 0 ==>
      && !r.error.NoThetaSets?
      && IsFirstBadPair(types, values, MaxLength(types), r.error.index)
      && r.error == PairError(types[r.error.index], values[r.error.index], r.error.index)
  {
    if |types| == 0 then Failure(NoThetaSets)
    else
      var n := MaxLength(types);
      var k := Min(|types|, |values|);
      var zippedTypes, zippedValues := types[..k], values[..k];
      match BalancePairs(zippedTypes, zippedValues, n, 0)
      case Failure(e) =>
        ZippedFirstBadPair(types, values, n, e.index);
        Failure(e)
      case Success(pairs) =>
        var out := (pairs.0 + types[k..], pairs.1 + values[k..]);
        SpliceSurplus(types, values, n, pairs.0, pairs.1);
        Success(out)
  }

  /** The first bad pair among the zipped prefixes is the first bad zipped pair. */
  lemma ZippedFirstBadPair<T, V>(types: seq<seq<T>>, values: seq<seq<V>>, n: nat, k: int)
    requires IsFirstBadPair(types[..Min(|types|, |values|)], values[..Min(|types|, |values|)], n, k)
    ensures IsFirstBadPair(types, values, n, k)
  {
  }

  /** Balanced zipped pairs followed by the untouched surplus lists. */
  lemma SpliceSurplus<T, V>(types: seq<seq<T>>, values: seq<seq<V>>, n: nat, ts: seq<seq<T>>, vs: seq<seq<V>>)
    requires |ts| == |vs| == Min(|types|, |values|)
    requires forall i :: 0 <= i < |ts| ==>
      CyclicExtension(ts[i], types[i], n) && CyclicExtension(vs[i], values[i], n)
    ensures |ts + types[|ts|..]| == |types| && |vs + values[|ts|..]| == |values|
    ensures forall i :: 0 <= i < |types| && i < |values| ==>
      && CyclicExtension((ts + types[|ts|..])[i], types[i], n)
      && CyclicExtension((vs + values[|ts|..])[i], values[i], n)
    ensures forall i :: |values| <= i < |types| ==> (ts + types[|ts|..])[i] == types[i]
    ensures forall i :: |types| <= i < |values| ==> (vs + values[|ts|..])[i] == values[i]
  {
  }

  /** A list that already has `n` entries is its own cyclic extension to `n`. */
  lemma CycleOfFull<X>(s: seq<X>)
    ensures CyclicExtension(s, s, |s|)
  {
  }

  /** The only cyclic extension of a list to its own length is the list itself. */
  lemma CyclicExtensionOfFull<X>(out: seq<X>, s: seq<X>)
    requires CyclicExtension(out, s, |s|)
    ensures out == s
  {
  }

  /** A cyclic extension starts with the list it extends ... */
  lemma CyclicExtensionStartsWith<X>(out: seq<X>, s: seq<X>, n: nat)
    requires CyclicExtension(out, s, n) && |s| <= n
    ensures out[..|s|] == s
  {
  }

  /** ... and repeats with period `|s|`. */
  lemma CyclicExtensionIsPeriodic<X>(out: seq<X>, s: seq<X>, n: nat, j: nat)
    requires CyclicExtension(out, s, n) && j + |s| < n
    ensures out[j + |s|] == out[j]
  {
    ModAddPeriod(j, |s|);
  }

  lemma ModAddPeriod(j: nat, m: nat)
    requires m > 0
    ensures (j + m) % m == j % m
  {
    var q, r := j / m, j % m;
    assert j == q * m + r;
    assert j + m == (q + 1) * m + r;
    ModUnique(j + m, m, q + 1, r);
  }

  /** The remainder is determined by any quotient-remainder decomposition. */
  lemma ModUnique(x: nat, m: nat, q: int, r: int)
    requires m > 0 && 0 <= r < m && x == q * m + r
    ensures x % m == r
  {
    var q', r' := x / m, x % m;
    assert x == q' * m + r';
    var d := q - q';
    assert d * m == r' - r;
    if d >= 1 {
      MulAtLeast(d, m);
    } else if d <= -1 {
      MulAtLeast(-d, m);
    }
  }

  lemma MulAtLeast(d: int, m: nat)
    requires d >= 1
    ensures d * m >= m
  {
  }

  /** A pair of lists that already has the maximum length is left as it was. */
  lemma BalanceKeepsFullPairs<T, V>(types: seq<seq<T>>, values: seq<seq<V>>, i: nat)
    requires BalanceThetas(types, values).Success?
    requires i < |types| && i < |values| && |types[i]| == MaxLength(types)
    ensures BalanceThetas(types, values).value.0[i] == types[i]
    ensures BalanceThetas(types, values).value.1[i] == values[i]
  {
    var r := BalanceThetas(types, values).value;
    CyclicExtensionOfFull(r.0[i], types[i]);
    CyclicExtensionOfFull(r.1[i], values[i]);
  }

  /** With as many values lists as types lists, every list comes out with
      the maximum types-list length. */
  lemma BalanceEqualizes<T, V>(types: seq<seq<T>>, values: seq<seq<V>>, i: nat)
    requires |types| == |values|
    requires BalanceThetas(types, values).Success?
    requires i < |types|
    ensures |BalanceThetas(types, values).value.0[i]| == MaxLength(types)
    ensures |BalanceThetas(types, values).value.1[i]| == MaxLength(types)
  {
  }

  /** A bound that every list respects and one list reaches is the maximum length. */
  lemma MaxLengthReached<T>(lists: seq<seq<T>>, n: nat, i0: nat)
    requires i0 < |lists| && |lists[i0]| == n
    requires forall i :: 0 <= i < |lists| ==> |lists[i]| <= n
    ensures MaxLength(lists) == n
  {
  }

  /** Lists in which every zipped pair has the maximum length balance to themselves. */
  lemma BalanceFixedPoint<T, V>(ts: seq<seq<T>>, vs: seq<seq<V>>)
    requires |ts| > 0
    requires forall i :: 0 <= i < |ts| && i < |vs| ==> |ts[i]| == MaxLength(ts) && |vs[i]| == MaxLength(ts)
    ensures BalanceThetas(ts, vs) == Success((ts, vs))
  {
    var n := MaxLength(ts);
    assert forall i :: 0 <= i < |ts| && i < |vs| ==> PairOk(ts[i], vs[i], n);
    var again := BalanceThetas(ts, vs);
    var ts', vs' := again.value.0, again.value.1;
    forall i | 0 <= i < |ts|
      ensures ts'[i] == ts[i]
    {
      if i < |vs| {
        CyclicExtensionOfFull(ts'[i], ts[i]);
      }
    }
    forall i | 0 <= i < |vs|
      ensures vs'[i] == vs[i]
    {
      if i < |ts| {
        CyclicExtensionOfFull(vs'[i], vs[i]);
      }
    }
    assert ts' == ts && vs' == vs;
  }

  /** Balancing lists that have already been balanced changes nothing. */
  lemma BalanceIdempotent<T, V>(types: seq<seq<T>>, values: seq<seq<V>>, ts: seq<seq<T>>, vs: seq<seq<V>>)
    requires BalanceThetas(types, values) == Success((ts, vs))
    ensures BalanceThetas(ts, vs) == Success((ts, vs))
  {
    var r := BalanceThetas(types, values);
    var n := MaxLength(types);
    var k := Min(|types|, |values|);
    assert r.value.0 == ts && r.value.1 == vs;
    assert |ts| == |types| > 0;
    forall i | 0 <= i < k
      ensures |ts[i]| == n && |vs[i]| == n
    {
      assert CyclicExtension(r.value.0[i], types[i], n);
      assert CyclicExtension(r.value.1[i], values[i], n);
    }
    if k > 0 {
      MaxLengthReached(ts, n, 0);
    } else {
      assert ts == types;
    }
    BalanceFixedPoint(ts, vs);
  }

}
