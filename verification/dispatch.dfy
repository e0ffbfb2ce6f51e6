/** The name-to-configuration dispatch of inference/utils.py:
    `get_activation_function`, `get_loss` and `get_optimizer`. The torch
    modules, the loss functions of `inference.losses` and the torch optimizer
    classes are opaque tags. */
module Dispatch {
  import opened Wrappers

  /** The exceptions the three functions raise for an unknown name. */
  datatype DispatchError =
    | UnknownActivation(name: string)  // ValueError
    | UnknownMethod(estimator: string)    // NotImplementedError
    | UnknownOptimizer(name: string)   // ValueError

  /** `nn.ReLU()`, `nn.Tanh()`, `nn.Sigmoid()`. */
  datatype Activation = ReLU | Tanh | Sigmoid

  /** The name under which `get_activation_function` selects `a`; selecting
      by that name gives `a` back. */
  function ActivationName(a: Activation): (name: string)
    ensures GetActivationFunction(name) == Success(a)
  {
    match a
    case ReLU => "relu"
    case Tanh => "tanh"
    case Sigmoid => "sigmoid"
  }

  function GetActivationFunction(name: string): (r: Result<Activation, DispatchError>)
    ensures r.Success? <==> name in {"relu", "tanh", "sigmoid"}
    ensures r.Failure? ==> r.error == UnknownActivation(name)
  {
    if name == "relu" then Success(ReLU)
    else if name == "tanh" then Success(Tanh)
    else if name == "sigmoid" then Success(Sigmoid)
    else Failure(UnknownActivation(name))
  }

  /** Every activation that is returned is the one its name stands for. */
  lemma ActivationNamesRoundTrip(name: string)
    requires GetActivationFunction(name).Success?
    ensures ActivationName(GetActivationFunction(name).value) == name
  {
  }

  /** `losses.xe`, `losses.mse_r`, `losses.mse_t0`, `losses.augmented_xe`. */
  datatype Loss = Xe | MseR | MseT0 | AugmentedXe

  /** The label each loss is logged under. */
  function LossLabel(l: Loss): string {
    match l
    case Xe => "xe"
    case MseR => "mse_r"
    case MseT0 => "mse_score"
    case AugmentedXe => "improved_xe"
  }

  /** The three parallel lists `get_loss` returns. */
  datatype LossConfig = LossConfig(functions: seq<Loss>, labels: seq<string>, weights: seq<real>)

  /** The estimator names `get_loss` knows. */
  const Estimators: set<string> := {"carl", "rolr", "cascal", "rascal", "alice", "alices"}

  /** The estimators that add the score regression term. */
  const ScoreEstimators: set<string> := {"cascal", "rascal", "alices"}

  function GetLoss(estimator: string, alpha: real): (r: Result<LossConfig, DispatchError>)
    ensures r.Success? <==> estimator in Estimators
    ensures r.Failure? ==> r.error == UnknownMethod(estimator)
    ensures r.Success? ==>
      && |r.value.functions| == |r.value.labels| == |r.value.weights| >= 1
      && r.value.weights[0] == 1.0
      && forall i :: 0 <= i < |r.value.functions| ==> r.value.labels[i] == LossLabel(r.value.functions[i])
    ensures r.Success? ==>
      r.value.functions[0] == (if estimator in {"carl", "cascal"} then Xe
                               else if estimator in {"rolr", "rascal"} then MseR
                               else AugmentedXe)
    ensures r.Success? ==> |r.value.functions| == (if estimator in ScoreEstimators then 2 else 1)
    ensures r.Success? && estimator in ScoreEstimators ==>
      r.value.functions[1] == MseT0 && r.value.labels[1] == "mse_score" && r.value.weights[1] == alpha
  {
    if estimator == "carl" then Success(LossConfig([Xe], ["xe"], [1.0]))
    else if estimator == "rolr" then Success(LossConfig([MseR], ["mse_r"], [1.0]))
    else if estimator == "cascal" then Success(LossConfig([Xe, MseT0], ["xe", "mse_score"], [1.0, alpha]))
    else if estimator == "rascal" then Success(LossConfig([MseR, MseT0], ["mse_r", "mse_score"], [1.0, alpha]))
    else if estimator == "alice" then Success(LossConfig([AugmentedXe], ["improved_xe"], [1.0]))
    else if estimator == "alices" then
      Success(LossConfig([AugmentedXe, MseT0], ["improved_xe", "mse_score"], [1.0, alpha]))
    else Failure(UnknownMethod(estimator))
  }

  /** The score-augmented variant of each single-term estimator. */
  function ScoreVariant(estimator: string): (v: string)
    requires estimator in Estimators - ScoreEstimators
    ensures v in ScoreEstimators
  {
    if estimator == "carl" then "cascal" else if estimator == "rolr" then "rascal" else "alices"
  }

  /** A score-augmented estimator trains on its base estimator's loss with weight 1
      plus the score loss with weight `alpha`. */
  lemma ScoreVariantAddsScoreTerm(estimator: string, alpha: real)
    requires estimator in Estimators - ScoreEstimators
    ensures GetLoss(ScoreVariant(estimator), alpha).Success?
    ensures GetLoss(ScoreVariant(estimator), alpha).value == LossConfig(
      GetLoss(estimator, alpha).value.functions + [MseT0],
      GetLoss(estimator, alpha).value.labels + ["mse_score"],
      GetLoss(estimator, alpha).value.weights + [alpha])
  {
  }

  /** `optim.Adam`, `optim.SGD`. */
  datatype OptimizerClass = Adam | SGD

  /** The keyword arguments `get_optimizer` passes to the optimizer class. */
  datatype OptimizerKwargs =
    | AmsGrad                     // {"amsgrad": True}
    | Nesterov(momentum: real)    // {"momentum": m, "nesterov": True}

  const OptimizerNames: set<string> := {"adam", "amsgrad", "sgd"}

  function GetOptimizer(name: string, nesterovMomentum: Option<real>)
    : (r: Result<(OptimizerClass, Option<OptimizerKwargs>), DispatchError>)
    ensures r.Success? <==> name in OptimizerNames
    ensures r.Failure? ==> r.error == UnknownOptimizer(name)
    ensures r.Success? ==> (r.value.0 == SGD <==> name == "sgd")
    ensures r.Success? ==> (r.value.1 == Some(AmsGrad) <==> name == "amsgrad")
    ensures r.Success? && name == "adam" ==> r.value.1.None?
    ensures r.Success? ==>
      (r.value.1.Some? && r.value.1.value.Nesterov? <==> name == "sgd" && nesterovMomentum.Some?)
    ensures r.Success? && r.value.1.Some? && r.value.1.value.Nesterov? ==>
      nesterovMomentum == Some(r.value.1.value.momentum)
  {
    if name == "adam" then Success((Adam, None))
    else if name == "amsgrad" then Success((Adam, Some(AmsGrad)))
    else if name == "sgd" then
      Success((SGD, if nesterovMomentum.Some? then Some(Nesterov(nesterovMomentum.value)) else None))
    else Failure(UnknownOptimizer(name))
  }

  /** The momentum argument matters only to SGD. */
  lemma OptimizerIgnoresMomentumUnlessSgd(name: string, m1: Option<real>, m2: Option<real>)
    requires name != "sgd"
    ensures GetOptimizer(name, m1) == GetOptimizer(name, m2)
  {
  }
}
