/**
 * The piecewise-linear predictor: a perceptron whose weight for history position `i` is
 * chosen by the branch's row (`address % numberOfPerceptrons`) and by the low address
 * bits of the branch that sits at position `i` of the path history.
 */
module PiecewisePredictor {
  import opened Bits
  import opened Branches
  import opened Locations
  import opened PerceptronLearning
  import opened Shifts

  const PERCEPTRONS_MINIMUM := 1
  const PERCEPTRONS_MAXIMUM := 10000
  const COUNTER_BITS_MINIMUM := 2
  const COUNTER_BITS_MAXIMUM := 16
  const HISTORY_LENGTH_MINIMUM := 1
  const HISTORY_LENGTH_MAXIMUM := 1024
  const ADDRESS_BITS_MINIMUM := 1
  const ADDRESS_BITS_MAXIMUM := 30
  const UPDATE_THRESHOLD_MINIMUM := 0
  const UPDATE_THRESHOLD_MAXIMUM := 1024

  class Piecewise {
    const numberOfPerceptrons: nat
    const counterBits: nat
    const counterMax: int
    const historyLength: nat
    const branchAddressBits: nat
    const maximumBranchAddress: nat
    const updateThreshold: int
    /** The outcomes of the last `historyLength` branches, oldest first. */
    const globalHistory: array<bool>
    /** The low address bits of those branches, in the same order. */
    const branchPaths: array<int>
    /** `weights[row, path, i]`; `weights[row, maximumBranchAddress, historyLength]` is the row's bias. */
    const weights: array3<int>
    var weightsIndex: nat
    var sum: int
    var prediction: bool

    /** Every path entry is below `2^branchAddressBits`, and the weights stay in `[-counterMax - 1, counterMax]`. */
    ghost predicate Valid()
      reads this, weights, branchPaths
    {
      PERCEPTRONS_MINIMUM <= numberOfPerceptrons <= PERCEPTRONS_MAXIMUM &&
      COUNTER_BITS_MINIMUM <= counterBits <= COUNTER_BITS_MAXIMUM &&
      HISTORY_LENGTH_MINIMUM <= historyLength <= HISTORY_LENGTH_MAXIMUM &&
      ADDRESS_BITS_MINIMUM <= branchAddressBits <= ADDRESS_BITS_MAXIMUM &&
      UPDATE_THRESHOLD_MINIMUM <= updateThreshold <= UPDATE_THRESHOLD_MAXIMUM &&
      counterMax == Pow2(counterBits - 1) - 1 &&
      maximumBranchAddress == Pow2(branchAddressBits) &&
      globalHistory as object != weights as object &&
      branchPaths as object != weights as object &&
      globalHistory as object != branchPaths as object &&
      globalHistory.Length == historyLength && branchPaths.Length == historyLength &&
      weights.Length0 == numberOfPerceptrons && weights.Length1 == maximumBranchAddress + 1 &&
      weights.Length2 == historyLength + 1 &&
      weightsIndex < numberOfPerceptrons &&
      (forall i :: 0 <= i < historyLength ==> 0 <= branchPaths[i] < maximumBranchAddress) &&
      forall a, b, c :: 0 <= a < weights.Length0 && 0 <= b < weights.Length1 && 0 <= c < weights.Length2 ==>
        -counterMax - 1 <= weights[a, b, c] <= counterMax
    }

    /** The weights row `r` uses for each history position, given the path entries. */
    function Selected(r: nat, paths: seq<int>): seq<int>
      reads weights
    {
      seq(|paths|, i reads weights =>
        if 0 <= i < |paths| && r < weights.Length0 && 0 <= paths[i] < weights.Length1 && i < weights.Length2
        then weights[r, paths[i], i] else 0)
    }

    /** The output of row `r`: its bias plus the path-selected weights, signed by the history. */
    function Output(r: nat, history: seq<bool>, paths: seq<int>): int
      reads this, weights
      requires r < weights.Length0 && maximumBranchAddress < weights.Length1 && |history| < weights.Length2
      requires |paths| == |history|
    {
      weights[r, maximumBranchAddress, |history|] + DotTo(Selected(r, paths), history, |history|)
    }

    constructor (numberOfPerceptrons: nat, counterBits: nat, historyLength: nat, branchAddressBits: nat, updateThreshold: int)
      requires PERCEPTRONS_MINIMUM <= numberOfPerceptrons <= PERCEPTRONS_MAXIMUM
      requires COUNTER_BITS_MINIMUM <= counterBits <= COUNTER_BITS_MAXIMUM
      requires HISTORY_LENGTH_MINIMUM <= historyLength <= HISTORY_LENGTH_MAXIMUM
      requires ADDRESS_BITS_MINIMUM <= branchAddressBits <= ADDRESS_BITS_MAXIMUM
      requires UPDATE_THRESHOLD_MINIMUM <= updateThreshold <= UPDATE_THRESHOLD_MAXIMUM
      ensures Valid() && fresh(globalHistory) && fresh(branchPaths) && fresh(weights)
      ensures this.numberOfPerceptrons == numberOfPerceptrons && this.counterBits == counterBits
      ensures this.historyLength == historyLength && this.branchAddressBits == branchAddressBits
      ensures this.updateThreshold == updateThreshold
      ensures forall i :: 0 <= i < historyLength ==> !globalHistory[i] && branchPaths[i] == 0
      ensures forall a, b, c :: 0 <= a < weights.Length0 && 0 <= b < weights.Length1 && 0 <= c < weights.Length2 ==>
                weights[a, b, c] == 0
    {
      this.numberOfPerceptrons := numberOfPerceptrons;
      this.counterBits := counterBits;
      this.historyLength := historyLength;
      this.branchAddressBits := branchAddressBits;
      this.updateThreshold := updateThreshold;
      globalHistory := new bool[historyLength](_ => false);
      branchPaths := new int[historyLength](_ => 0);
      maximumBranchAddress := Pow2(branchAddressBits);
      weights := new int[numberOfPerceptrons, Pow2(branchAddressBits) + 1, historyLength + 1]((_, _, _) => 0);
      counterMax := Pow2(counterBits - 1) - 1;
      weightsIndex := 0;
      sum := 0;
      prediction := false;
    }

    /** Selects the branch's row and predicts taken when its output for the current history and path is non-negative. */
    method PredictBranch(info: BranchInfo) returns (p: bool)
      requires Valid()
      modifies this
      ensures Valid()
      ensures weightsIndex == BranchIndex(info.address as int, numberOfPerceptrons)
      ensures sum == Output(weightsIndex, globalHistory[..], branchPaths[..])
      ensures p == prediction == (sum >= 0)
    {
      weightsIndex := BranchIndex(info.address as int, numberOfPerceptrons);
      var r := weightsIndex;
      var total := weights[r, maximumBranchAddress, historyLength];
      var i := 0;
      while i < historyLength
        invariant 0 <= i <= historyLength
        invariant total == weights[r, maximumBranchAddress, historyLength] + DotTo(Selected(r, branchPaths[..]), globalHistory[..], i)
      {
        if globalHistory[i] {
          total := total + weights[r, branchPaths[i], i];
        } else {
          total := total - weights[r, branchPaths[i], i];
        }
        i := i + 1;
      }
      sum := total;
      prediction := sum >= 0;
      return prediction;
    }

    /** Trains the bias of the selected row toward the outcome. */
    method TrainBias(taken: bool)
      requires Valid()
      modifies weights
      ensures Valid()
      ensures weights[weightsIndex, maximumBranchAddress, historyLength] ==
              Train(old(weights[weightsIndex, maximumBranchAddress, historyLength]), taken, -counterMax - 1, counterMax)
      ensures forall a, b, c ::
                0 <= a < weights.Length0 && 0 <= b < weights.Length1 && 0 <= c < weights.Length2 &&
                (a != weightsIndex || b != maximumBranchAddress || c != historyLength) ==>
                weights[a, b, c] == old(weights[a, b, c])
    {
      var r := weightsIndex;
      TrainInRange(weights[r, maximumBranchAddress, historyLength], taken, -counterMax - 1, counterMax);
      if taken {
        if weights[r, maximumBranchAddress, historyLength] < counterMax {
          weights[r, maximumBranchAddress, historyLength] := weights[r, maximumBranchAddress, historyLength] + 1;
        }
      } else {
        if weights[r, maximumBranchAddress, historyLength] > -counterMax - 1 {
          weights[r, maximumBranchAddress, historyLength] := weights[r, maximumBranchAddress, historyLength] - 1;
        }
      }
    }

    /** Trains the weight each history position selects toward agreeing with that position's outcome. */
    method TrainWeights(taken: bool)
      requires Valid()
      modifies weights
      ensures Valid()
      ensures forall i :: 0 <= i < historyLength ==>
                weights[weightsIndex, branchPaths[i], i] ==
                Train(old(weights[weightsIndex, branchPaths[i], i]), globalHistory[i] == taken, -counterMax - 1, counterMax)
      ensures forall a, b, c ::
                0 <= a < weights.Length0 && 0 <= b < weights.Length1 && 0 <= c < weights.Length2 &&
                (a != weightsIndex || c == historyLength || b != branchPaths[c]) ==>
                weights[a, b, c] == old(weights[a, b, c])
    {
      var r := weightsIndex;
      var i := 0;
      while i < historyLength
        invariant 0 <= i <= historyLength
        invariant Valid()
        invariant forall j :: 0 <= j < i ==>
                    weights[r, branchPaths[j], j] ==
                    Train(old(weights[r, branchPaths[j], j]), globalHistory[j] == taken, -counterMax - 1, counterMax)
        invariant forall a, b, c ::
                    0 <= a < weights.Length0 && 0 <= b < weights.Length1 && 0 <= c < weights.Length2 &&
                    (a != r || i <= c || b != branchPaths[c]) ==>
                    weights[a, b, c] == old(weights[a, b, c])
      {
        var path := branchPaths[i];
        TrainInRange(weights[r, path, i], globalHistory[i] == taken, -counterMax - 1, counterMax);
        if globalHistory[i] == taken {
          if weights[r, path, i] < counterMax {
            weights[r, path, i] := weights[r, path, i] + 1;
          }
        } else {
          if weights[r, path, i] > -counterMax - 1 {
            weights[r, path, i] := weights[r, path, i] - 1;
          }
        }
        i := i + 1;
      }
    }

    /**
     * Trains the selected row: the bias toward the outcome, each selected weight toward
     * agreeing with its history bit. The output for the same history and path moves toward
     * the outcome.
     */
    method Learn(taken: bool)
      requires Valid()
      modifies weights
      ensures Valid()
      ensures weights[weightsIndex, maximumBranchAddress, historyLength] ==
              Train(old(weights[weightsIndex, maximumBranchAddress, historyLength]), taken, -counterMax - 1, counterMax)
      ensures forall i :: 0 <= i < historyLength ==>
                weights[weightsIndex, branchPaths[i], i] ==
                Train(old(weights[weightsIndex, branchPaths[i], i]), globalHistory[i] == taken, -counterMax - 1, counterMax)
      ensures forall a, b, c ::
                0 <= a < weights.Length0 && 0 <= b < weights.Length1 && 0 <= c < weights.Length2 &&
                (a != weightsIndex || (c == historyLength && b != maximumBranchAddress) || (c < historyLength && b != branchPaths[c])) ==>
                weights[a, b, c] == old(weights[a, b, c])
      ensures Toward(taken, Output(weightsIndex, globalHistory[..], branchPaths[..])) >=
              Toward(taken, old(Output(weightsIndex, globalHistory[..], branchPaths[..])))
    {
      ghost var before := Selected(weightsIndex, branchPaths[..]);
      ghost var bias := weights[weightsIndex, maximumBranchAddress, historyLength];
      TrainBias(taken);
      TrainWeights(taken);
      BiasedOutputToward(bias, before, Selected(weightsIndex, branchPaths[..]), globalHistory[..],
                         taken, -counterMax - 1, counterMax, historyLength);
    }

    /** Shifts the outcome into the history and the branch's low address bits into the path, both last. */
    method ShiftHistory(taken: bool, address: bv32)
      requires Valid()
      modifies globalHistory, branchPaths
      ensures Valid()
      ensures globalHistory[..] == old(globalHistory[..])[1..] + [taken]
      ensures branchPaths[..] == old(branchPaths[..])[1..] + [Low(address, branchAddressBits)]
    {
      ShiftIntoLast(globalHistory, taken);
      ShiftIntoLast(branchPaths, Low(address, branchAddressBits));
      assert forall i :: 0 <= i < historyLength ==> branchPaths[i] == branchPaths[..][i];
    }

    /** Trains on a misprediction or a weak output, then records the branch in the history and the path. */
    method Update(branch: Branch)
      requires Valid()
      modifies weights, globalHistory, branchPaths
      ensures Valid()
      ensures globalHistory[..] == old(globalHistory[..])[1..] + [branch.taken]
      ensures branchPaths[..] == old(branchPaths[..])[1..] + [Low(branch.info.address, branchAddressBits)]
      ensures Learns(branch.taken, prediction, sum, updateThreshold) ==>
                weights[weightsIndex, maximumBranchAddress, historyLength] ==
                Train(old(weights[weightsIndex, maximumBranchAddress, historyLength]), branch.taken, -counterMax - 1, counterMax)
      ensures Learns(branch.taken, prediction, sum, updateThreshold) ==>
                forall i :: 0 <= i < historyLength ==>
                  weights[weightsIndex, old(branchPaths[i]), i] ==
                  Train(old(weights[weightsIndex, branchPaths[i], i]), old(globalHistory[i]) == branch.taken, -counterMax - 1, counterMax)
      ensures Learns(branch.taken, prediction, sum, updateThreshold) ==>
                Toward(branch.taken, Output(weightsIndex, old(globalHistory[..]), old(branchPaths[..]))) >=
                Toward(branch.taken, old(Output(weightsIndex, globalHistory[..], branchPaths[..])))
      ensures !Learns(branch.taken, prediction, sum, updateThreshold) ==> unchanged(weights)
      ensures forall a, b, c ::
                0 <= a < weights.Length0 && 0 <= b < weights.Length1 && 0 <= c < weights.Length2 &&
                (a != weightsIndex || (c == historyLength && b != maximumBranchAddress) ||
                 (c < historyLength && b != old(branchPaths[c]))) ==>
                weights[a, b, c] == old(weights[a, b, c])
    {
      if branch.taken != prediction || Abs(sum) < updateThreshold {
        Learn(branch.taken);
      }
      ShiftHistory(branch.taken, branch.info.address);
    }

    /** Zeroes every weight, the history and the path. */
    method Reset()
      requires Valid()
      modifies weights, globalHistory, branchPaths
      ensures Valid()
      ensures forall a, b, c :: 0 <= a < weights.Length0 && 0 <= b < weights.Length1 && 0 <= c < weights.Length2 ==>
                weights[a, b, c] == 0
      ensures forall i :: 0 <= i < historyLength ==> !globalHistory[i] && branchPaths[i] == 0
    {
      ResetWeights();
      var i := 0;
      while i < historyLength
        invariant 0 <= i <= historyLength
        invariant Valid()
        invariant forall a, b, c :: 0 <= a < weights.Length0 && 0 <= b < weights.Length1 && 0 <= c < weights.Length2 ==>
                    weights[a, b, c] == 0
        invariant forall j :: 0 <= j < i ==> !globalHistory[j] && branchPaths[j] == 0
      {
        globalHistory[i] := false;
        branchPaths[i] := 0;
        i := i + 1;
      }
    }

    /** The triple loop of the reset over the weights. */
    method ResetWeights()
      requires Valid()
      modifies weights
      ensures Valid()
      ensures forall a, b, c :: 0 <= a < weights.Length0 && 0 <= b < weights.Length1 && 0 <= c < weights.Length2 ==>
                weights[a, b, c] == 0
    {
      var i := 0;
      while i < numberOfPerceptrons
        invariant 0 <= i <= numberOfPerceptrons
        invariant Valid()
        invariant forall a, b, c :: 0 <= a < i && 0 <= b < weights.Length1 && 0 <= c < weights.Length2 ==> weights[a, b, c] == 0
      {
        var j := 0;
        while j < maximumBranchAddress + 1
          invariant 0 <= j <= maximumBranchAddress + 1
          invariant Valid()
          invariant forall a, b, c :: 0 <= a < i && 0 <= b < weights.Length1 && 0 <= c < weights.Length2 ==> weights[a, b, c] == 0
          invariant forall b, c :: 0 <= b < j && 0 <= c < weights.Length2 ==> weights[i, b, c] == 0
        {
          var k := 0;
          while k < historyLength + 1
            invariant 0 <= k <= historyLength + 1
            invariant Valid()
            invariant forall a, b, c :: 0 <= a < i && 0 <= b < weights.Length1 && 0 <= c < weights.Length2 ==> weights[a, b, c] == 0
            invariant forall b, c :: 0 <= b < j && 0 <= c < weights.Length2 ==> weights[i, b, c] == 0
            invariant forall c :: 0 <= c < k ==> weights[i, j, c] == 0
          {
            weights[i, j, k] := 0;
            k := k + 1;
          }
          j := j + 1;
        }
        i := i + 1;
      }
    }
  }
}
