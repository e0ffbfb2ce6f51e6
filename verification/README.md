# Dataset-shaping and dispatch helpers of `inference/utils.py`

This project is a Dafny model of the discrete helpers in `inference/utils.py`
of the mining-for-substructure-lens inference pipeline. The pipeline trains
likelihood-ratio estimators named carl, rolr, cascal, rascal, alice and alices.
The model covers:

- `balance_thetas`: pads each parallel pair of theta-types and theta-values
  lists to the length of the longest types list. It repeats entries
  cyclically, so entry `j` is `j % len` of the original (`thetas.dfy`).
- `shuffle`: applies one permutation of the samples to every array and passes
  `None` through (`shuffle.dfy`). The random permutation is a parameter
  (`permutations.dfy`).
- `restrict_samplesize`: cuts every array to `a[:n]` and passes `None`
  through (`sample_size.dfy`).
- `get_activation_function`, `get_loss` and `get_optimizer`: map a name to a
  configuration. Activations, loss functions and optimizer classes are opaque
  tags (`dispatch.dfy`).

A Python `None` is `Option.None`. A raised exception is `Result.Failure`
carrying the error the source raises (`wrappers.dfy`). Arrays are sequences
of rows, and indexing by an integer array along the first axis is
`Permutations.Reindex`.

Where the code and its docstrings differ, the model follows the code:

- `balance_thetas` pairs the lists with `zip`, so only the first
  `min(len(types), len(values))` pairs are checked and padded. Lists beyond
  that point come back unchanged, even if they are shorter than the maximum.
  So "every list has the maximum length" holds only when both outer lists
  have the same length (`Thetas.BalanceEqualizes`).
- The maximum is taken over the types lists only.
- `max` of an empty outer list raises (`NoThetaSets`).
- An empty pair raises `ZeroDivisionError` from `j % 0` when the maximum is
  positive (`EmptyThetaSet`). The length assertion is checked first, and the
  first bad pair decides the error.
- `restrict_samplesize` uses Python slicing: a negative `n` drops entries from
  the end and `None` keeps everything (`SampleSize.SliceStop`).

## Model

| member | source | states |
|---|---|---|
| Thetas.MaxLength | inference/utils.py:75 | `n_sets` bounds every types list and is reached by one of them |
| Thetas.BalancePairs | inference/utils.py:77-83 | the loop succeeds iff every pair has equal lengths and can be padded; each output list is the cyclic extension (entry `j` = input entry `j % len`) to `n_sets`; otherwise the error names the first bad pair, assertion before division |
| Thetas.BalanceThetas | inference/utils.py:72-85 | raises on no theta sets; succeeds iff every zipped pair is balanceable; zipped pairs become cyclic extensions to the longest types length; unzipped surplus lists and outer lengths are unchanged; errors name the first bad pair |
| Thetas.BalanceKeepsFullPairs | inference/utils.py:79-81 | a pair already at the maximum length is returned as it was |
| Thetas.BalanceEqualizes | inference/utils.py:75-83 | with as many values lists as types lists, every output list has the maximum types length |
| Thetas.BalanceFixedPoint | inference/utils.py:75-83 | lists whose zipped pairs all have the maximum types length come back unchanged |
| Thetas.BalanceIdempotent | inference/utils.py:72-85 | balancing the balanced lists changes nothing, whatever the lengths of the two outer lists |
| Thetas.Cycle | inference/utils.py:82-83 | the list comprehension has `n_sets` entries, entry `j` being entry `j % len` of the original, and starts with the original when it is at least as long |
| Thetas.CyclicExtensionStartsWith | inference/utils.py:82-83 | a padded list starts with the original list |
| Thetas.CyclicExtensionIsPeriodic | inference/utils.py:82-83 | a padded list repeats with the original length as period |
| Thetas.CyclicExtensionOfFull | inference/utils.py:81 | padding a list to its own length would give the list itself, so skipping it loses nothing |
| Permutations.Reindex | inference/utils.py:66 | `a[permutation]` has one row per permutation entry, row `j` being row `permutation[j]` of `a` |
| Permutations.PermutationIsOnto | inference/utils.py:63 | a permutation of `[0, n)` hits every sample index |
| Permutations.ReindexPreservesMultiset | inference/utils.py:66 | `a[perm]` holds exactly the rows of `a`, each as often |
| Shuffle.FirstPresent | inference/utils.py:56-63 | the permutation is sized by the first array that is not `None`; all earlier entries are `None` |
| Shuffle.SampleCount | inference/utils.py:61-62 | `n_samples` is absent exactly when every array is `None`, and otherwise is the first dimension of the first array that is not `None` |
| Shuffle.ShuffleEach | inference/utils.py:56-67 | succeeds iff every non-`None` array has `n_samples` rows; then `None` stays at its position and each array is reindexed by the one permutation with its length kept; otherwise the error names the first mismatching array |
| Shuffle.ShuffleArrays | inference/utils.py:49-69 | succeeds iff all non-`None` arrays agree on their first dimension; one entry per input, `None` kept, each array reindexed by the shared permutation; the failing assertion names the first array that disagrees with the first non-`None` one |
| Shuffle.ConsistentIffFirstCount | inference/utils.py:61-65 | agreeing with the first non-`None` array is the same as all arrays agreeing |
| Shuffle.ShufflePermutesRows | inference/utils.py:66 | each shuffled array is a permutation of its input |
| Shuffle.ShuffleKeepsRowsAligned | inference/utils.py:61-67 | rows at one index in two arrays still share one index after shuffling |
| SampleSize.RestrictSampleSize | inference/utils.py:302-312 | one entry per input; `None` passes through; each array becomes a prefix of itself of length `min(n, len)` for `n >= 0`, `max(0, len + n)` for negative `n`, everything for `None` |
| SampleSize.SliceStop | inference/utils.py:310 | the slice `a[:n]` keeps `min(n, len)` entries for `n >= 0`, drops `min(-n, len)` from the end for negative `n`, and keeps everything for `None` |
| SampleSize.RestrictTwice | inference/utils.py:302-312 | restricting to `m` then `m'` samples is restricting to `min(m, m')` |
| SampleSize.ShuffleThenRestrict | inference/utils.py:302-312 | shuffling then restricting to `m` draws rows `perm[..m]` from every array |
| Dispatch.GetActivationFunction | inference/utils.py:15-23 | succeeds exactly for "relu", "tanh" and "sigmoid"; any other name raises the unknown-activation error |
| Dispatch.ActivationName | inference/utils.py:16-21 | each activation's name selects that activation again |
| Dispatch.ActivationNamesRoundTrip | inference/utils.py:15-23 | a returned activation is the one its name stands for |
| Dispatch.GetLoss | inference/utils.py:256-283 | succeeds exactly for the six estimators; function, label and weight lists have equal length, the first weight is 1.0, each label names its loss; the first loss is `xe` for carl and cascal, `mse_r` for rolr and rascal, `augmented_xe` for alice and alices; two terms for cascal, rascal and alices and one for the others, the second being the score loss "mse_score" with weight `alpha`; other names raise |
| Dispatch.ScoreVariant | inference/utils.py:265-280 | each single-term estimator has a score-augmented variant |
| Dispatch.ScoreVariantAddsScoreTerm | inference/utils.py:257-280 | cascal, rascal and alices are carl, rolr and alice plus the score term at weight `alpha` |
| Dispatch.GetOptimizer | inference/utils.py:286-299 | succeeds exactly for "adam", "amsgrad" and "sgd"; SGD only for "sgd"; `amsgrad` kwargs only for "amsgrad"; "adam" has no kwargs; Nesterov kwargs exactly for "sgd" with a momentum supplied, carrying that momentum; other names raise |
| Dispatch.OptimizerIgnoresMomentumUnlessSgd | inference/utils.py:286-299 | the momentum argument affects only SGD |

## Left out

- `weighted_quantile`, `sanitize_array`, `clean_log_r`, `clean_t`, `s_from_r`,
  `r_from_s`, `sigmoid`, `approx_equal`: floating-point numerics with NaN and
  infinity handling, clipping and exponentials.
- `load_and_check`: file I/O, memory-mapping, dtype conversion and logging.
- `create_missing_folders`: file-system side effects.
- `check_for_nans_in_parameters`: torch tensors and gradients.
- The loss functions of `inference.losses` and the torch activation and
  optimizer classes: foreign code, modelled only as tags. `inference/losses.py`
  is not part of this model.
- The randomness of `np.random.permutation`: the permutation is an input.
  Any permutation of the right size may be supplied.
- The in-place update of the caller's lists in `balance_thetas`: the model
  returns the new lists. So a pair padded before a later pair raises is not
  visible in the model.
- The view aliasing of `restrict_samplesize`: `a[:n]` on a numpy array shares
  memory with the caller's array, while the model returns an independent
  sequence.
- The assertions of `shuffle` and `balance_thetas` are taken to be enabled.
  Under `python -O` they are removed. `shuffle` then returns only `n_samples`
  rows of a longer array or raises `IndexError` on a shorter one.
  `balance_thetas` then pads values lists with the period of their types list,
  leaves them as they are when the types list already has the maximum length,
  raises `IndexError`, or raises `ZeroDivisionError` when the types list is
  empty. The model raises the assertion error in both cases.
- Arrays with a trailing shape beyond the first axis: rows are opaque
  elements, since all three operations act on the first axis only.
- Weights, `alpha` and the momentum are Dafny `real`s, not floating-point
  numbers. The model only copies them, so no rounding is involved.
