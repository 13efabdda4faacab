/**
 * The perceptron predictor: per location (`address % numberOfPerceptrons`) a row of
 * weights, one per global history position plus a bias; the output is the bias plus
 * each weight added or subtracted according to its history bit.
 */
module PerceptronPredictor {
  import opened Bits
  import opened Branches
  import opened Locations
  import opened PerceptronLearning
  import opened Shifts

  const PERCEPTRONS_MINIMUM := 1
  const PERCEPTRONS_MAXIMUM := 1048576
  const COUNTER_BITS_MINIMUM := 2
  const COUNTER_BITS_MAXIMUM := 16
  const HISTORY_LENGTH_MINIMUM := 1
  const HISTORY_LENGTH_MAXIMUM := 1024
  const UPDATE_THRESHOLD_MINIMUM := 0
  const UPDATE_THRESHOLD_MAXIMUM := 1024

  class Perceptron {
    const numberOfPerceptrons: nat
    const counterBits: nat
    const counterMax: int
    const historyLength: nat
    const updateThreshold: int
    /** The outcomes of the last `historyLength` branches, oldest first. */
    const globalHistory: array<bool>
    /** `weights[i, j]` for `j < historyLength` weighs history position `j`; `weights[i, historyLength]` is the bias. */
    const weights: array2<int>
    var weightsIndex: nat
    var sum: int
    var prediction: bool

    /** The weights stay in the asymmetric range `[-counterMax, counterMax - 1]`. */
    ghost predicate Valid()
      reads this, weights
    {
      PERCEPTRONS_MINIMUM <= numberOfPerceptrons <= PERCEPTRONS_MAXIMUM &&
      COUNTER_BITS_MINIMUM <= counterBits <= COUNTER_BITS_MAXIMUM &&
      HISTORY_LENGTH_MINIMUM <= historyLength <= HISTORY_LENGTH_MAXIMUM &&
      UPDATE_THRESHOLD_MINIMUM <= updateThreshold <= UPDATE_THRESHOLD_MAXIMUM &&
      counterMax == Pow2(counterBits - 1) - 1 &&
      globalHistory as object != weights as object &&
      globalHistory.Length == historyLength &&
      weights.Length0 == numberOfPerceptrons && weights.Length1 == historyLength + 1 &&
      weightsIndex < numberOfPerceptrons &&
      forall i, j :: 0 <= i < weights.Length0 && 0 <= j < weights.Length1 ==> -counterMax <= weights[i, j] <= counterMax - 1
    }

    /** Row `r` of the weights, bias last. */
    function Row(r: nat): seq<int>
      reads weights
    {
      seq(weights.Length1, j reads weights => if r < weights.Length0 && 0 <= j < weights.Length1 then weights[r, j] else 0)
    }

    /** The output of row `r` for a history: the bias plus the signed weights. */
    function Output(r: nat, history: seq<bool>): int
      reads weights
      requires r < weights.Length0 && |history| < weights.Length1
    {
      weights[r, |history|] + DotTo(Row(r), history, |history|)
    }

    constructor (numberOfPerceptrons: nat, counterBits: nat, historyLength: nat, updateThreshold: int)
      requires PERCEPTRONS_MINIMUM <= numberOfPerceptrons <= PERCEPTRONS_MAXIMUM
      requires COUNTER_BITS_MINIMUM <= counterBits <= COUNTER_BITS_MAXIMUM
      requires HISTORY_LENGTH_MINIMUM <= historyLength <= HISTORY_LENGTH_MAXIMUM
      requires UPDATE_THRESHOLD_MINIMUM <= updateThreshold <= UPDATE_THRESHOLD_MAXIMUM
      ensures Valid() && fresh(globalHistory) && fresh(weights)
      ensures this.numberOfPerceptrons == numberOfPerceptrons && this.counterBits == counterBits
      ensures this.historyLength == historyLength && this.updateThreshold == updateThreshold
      ensures forall j :: 0 <= j < globalHistory.Length ==> !globalHistory[j]
      ensures forall i, j :: 0 <= i < weights.Length0 && 0 <= j < weights.Length1 ==> weights[i, j] == 0
    {
      this.numberOfPerceptrons := numberOfPerceptrons;
      this.counterBits := counterBits;
      this.historyLength := historyLength;
      this.updateThreshold := updateThreshold;
      globalHistory := new bool[historyLength](_ => false);
      weights := new int[numberOfPerceptrons, historyLength + 1]((_, _) => 0);
      counterMax := Pow2(counterBits - 1) - 1;
      weightsIndex := 0;
      sum := 0;
      prediction := false;
    }

    /** Selects the branch's row and predicts taken when its output for the global history is non-negative. */
    method PredictBranch(info: BranchInfo) returns (p: bool)
      requires Valid()
      modifies this
      ensures Valid()
      ensures weightsIndex == BranchIndex(info.address as int, numberOfPerceptrons)
      ensures sum == Output(weightsIndex, globalHistory[..])
      ensures p == prediction == (sum >= 0)
    {
      weightsIndex := BranchIndex(info.address as int, numberOfPerceptrons);
      var r := weightsIndex;
      var total := weights[r, historyLength];
      var i := 0;
      while i < historyLength
        invariant 0 <= i <= historyLength
        invariant total == weights[r, historyLength] + DotTo(Row(r), globalHistory[..], i)
      {
        if globalHistory[i] {
          total := total + weights[r, i];
        } else {
          total := total - weights[r, i];
        }
        i := i + 1;
      }
      sum := total;
      prediction := sum >= 0;
      return prediction;
    }

    /** Trains the bias of the selected row toward the outcome. */
    method TrainBias(taken: bool)
      requires Valid()
      modifies weights
      ensures Valid()
      ensures weights[weightsIndex, historyLength] ==
              Train(old(weights[weightsIndex, historyLength]), taken, -counterMax, counterMax - 1)
      ensures forall a, j :: 0 <= a < weights.Length0 && 0 <= j < weights.Length1 && (a != weightsIndex || j != historyLength) ==>
                weights[a, j] == old(weights[a, j])
    {
      var r := weightsIndex;
      TrainInRange(weights[r, historyLength], taken, -counterMax, counterMax - 1);
      if taken {
        if weights[r, historyLength] < counterMax - 1 {
          weights[r, historyLength] := weights[r, historyLength] + 1;
        }
      } else {
        if weights[r, historyLength] > -counterMax {
          weights[r, historyLength] := weights[r, historyLength] - 1;
        }
      }
    }

    /** Trains each history weight of the selected row toward agreeing with its history bit. */
    method TrainWeights(taken: bool)
      requires Valid()
      modifies weights
      ensures Valid()
      ensures forall j :: 0 <= j < historyLength ==>
                weights[weightsIndex, j] == Train(old(weights[weightsIndex, j]), globalHistory[j] == taken, -counterMax, counterMax - 1)
      ensures forall a, j :: 0 <= a < weights.Length0 && 0 <= j < weights.Length1 && (a != weightsIndex || j == historyLength) ==>
                weights[a, j] == old(weights[a, j])
    {
      var r := weightsIndex;
      var i := 0;
      while i < historyLength
        invariant 0 <= i <= historyLength
        invariant Valid()
        invariant forall j :: 0 <= j < i ==>
                    weights[r, j] == Train(old(weights[r, j]), globalHistory[j] == taken, -counterMax, counterMax - 1)
        invariant forall a, j :: 0 <= a < weights.Length0 && 0 <= j < weights.Length1 && (a != r || i <= j) ==>
                    weights[a, j] == old(weights[a, j])
      {
        TrainInRange(weights[r, i], globalHistory[i] == taken, -counterMax, counterMax - 1);
        if globalHistory[i] == taken {
          if weights[r, i] < counterMax - 1 {
            weights[r, i] := weights[r, i] + 1;
          }
        } else {
          if weights[r, i] > -counterMax {
            weights[r, i] := weights[r, i] - 1;
          }
        }
        i := i + 1;
      }
    }

    /**
     * Trains the selected row: the bias toward the outcome, and each weight toward agreeing
     * with its history bit. The row's output for the same history moves toward the outcome.
     */
    method Learn(taken: bool)
      requires Valid()
      modifies weights
      ensures Valid()
      ensures weights[weightsIndex, historyLength] ==
              Train(old(weights[weightsIndex, historyLength]), taken, -counterMax, counterMax - 1)
      ensures forall j :: 0 <= j < historyLength ==>
                weights[weightsIndex, j] == Train(old(weights[weightsIndex, j]), globalHistory[j] == taken, -counterMax, counterMax - 1)
      ensures forall i, j :: 0 <= i < weights.Length0 && 0 <= j < weights.Length1 && i != weightsIndex ==>
                weights[i, j] == old(weights[i, j])
      ensures Toward(taken, Output(weightsIndex, globalHistory[..])) >= Toward(taken, old(Output(weightsIndex, globalHistory[..])))
    {
      ghost var before := Row(weightsIndex);
      TrainBias(taken);
      TrainWeights(taken);
      BiasedOutputToward(before[historyLength], before, Row(weightsIndex), globalHistory[..], taken, -counterMax, counterMax - 1, historyLength);
    }

    /** Shifts the outcome into the global history: every bit moves one place toward the front, the newest goes last. */
    method ShiftHistory(taken: bool)
      requires Valid()
      modifies globalHistory
      ensures Valid()
      ensures globalHistory[..] == old(globalHistory[..])[1..] + [taken]
    {
      ShiftIntoLast(globalHistory, taken);
    }

    /** Trains on a misprediction or a weak output, then records the outcome in the history. */
    method Update(branch: Branch)
      requires Valid()
      modifies weights, globalHistory
      ensures Valid()
      ensures globalHistory[..] == old(globalHistory[..])[1..] + [branch.taken]
      ensures Learns(branch.taken, prediction, sum, updateThreshold) ==>
                weights[weightsIndex, historyLength] ==
                Train(old(weights[weightsIndex, historyLength]), branch.taken, -counterMax, counterMax - 1) &&
                (forall j :: 0 <= j < historyLength ==>
                   weights[weightsIndex, j] ==
                   Train(old(weights[weightsIndex, j]), old(globalHistory[j]) == branch.taken, -counterMax, counterMax - 1)) &&
                Toward(branch.taken, Output(weightsIndex, old(globalHistory[..]))) >=
                Toward(branch.taken, old(Output(weightsIndex, globalHistory[..])))
      ensures !Learns(branch.taken, prediction, sum, updateThreshold) ==> unchanged(weights)
      ensures forall i, j :: 0 <= i < weights.Length0 && 0 <= j < weights.Length1 && i != weightsIndex ==>
                weights[i, j] == old(weights[i, j])
    {
      if branch.taken != prediction || Abs(sum) < updateThreshold {
        Learn(branch.taken);
      }
      ShiftHistory(branch.taken);
    }

    /** Zeroes every weight and clears the history. */
    method Reset()
      requires Valid()
      modifies weights, globalHistory
      ensures Valid()
      ensures forall i, j :: 0 <= i < weights.Length0 && 0 <= j < weights.Length1 ==> weights[i, j] == 0
      ensures forall j :: 0 <= j < globalHistory.Length ==> !globalHistory[j]
    {
      var i := 0;
      while i < numberOfPerceptrons
        invariant 0 <= i <= numberOfPerceptrons
        invariant Valid()
        invariant forall a, j :: 0 <= a < i && 0 <= j < weights.Length1 ==> weights[a, j] == 0
      {
        var j := 0;
        while j < historyLength + 1
          invariant 0 <= j <= historyLength + 1
          invariant Valid()
          invariant forall a, k :: 0 <= a < i && 0 <= k < weights.Length1 ==> weights[a, k] == 0
          invariant forall k :: 0 <= k < j ==> weights[i, k] == 0
        {
          weights[i, j] := 0;
          j := j + 1;
        }
        i := i + 1;
      }
      i := 0;
      while i < historyLength
        invariant 0 <= i <= historyLength
        invariant Valid()
        invariant forall a, j :: 0 <= a < weights.Length0 && 0 <= j < weights.Length1 ==> weights[a, j] == 0
        invariant forall j :: 0 <= j < i ==> !globalHistory[j]
      {
        globalHistory[i] := false;
        i := i + 1;
      }
    }
  }
}
