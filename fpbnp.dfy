/**
 * The fast path-based neural predictor. Like the perceptron it sums one weight per
 * history position, but the weight for position `j` comes from the row of the branch
 * `j` places back on the path, and the sum is computed ahead of time: each prediction
 * adds its own contribution to every partial sum in `shiftVector`, so that the next
 * branch only adds its bias to `shiftVector[historyLength]`.
 */
module FPBNPPredictor {
  import opened Bits
  import opened Branches
  import opened Locations
  import opened PerceptronLearning
  import opened Shifts

  const PERCEPTRONS_MINIMUM := 1
  const PERCEPTRONS_MAXIMUM := 10000
  const COUNTER_BITS_MINIMUM := 2
  const COUNTER_BITS_MAXIMUM := 16
  const HISTORY_LENGTH_MINIMUM := 1
  const HISTORY_LENGTH_MAXIMUM := 1024

  /** One prediction as the partial sums saw it: the weights row it used and the direction it added them in. */
  datatype Step = Step(row: seq<int>, taken: bool)

  ghost predicate RowsFit(steps: seq<Step>, n: nat) {
    forall i :: 0 <= i < |steps| ==> |steps[i].row| == n
  }

  /**
   * Partial sum `k` of the shift vector after a run of predictions (oldest first) with
   * rows of width `n`: each prediction moves every partial sum up one place and adds to
   * it, in its own direction, the column of its row that is the distance the sum still
   * has to go; partial sum 0 starts afresh at each prediction.
   */
  function PathDot(steps: seq<Step>, k: nat, n: nat): int
    requires k < n && RowsFit(steps, n)
  {
    if k == 0 || steps == [] then 0
    else PathDot(steps[..|steps| - 1], k - 1, n) + Signed(steps[|steps| - 1].taken, steps[|steps| - 1].row[n - k])
  }

  /**
   * The same sum written position by position: the first `m` terms, the prediction `j`
   * places back (the newest is 1) adding column `n - k + j - 1` of its row.
   */
  function PathTerms(steps: seq<Step>, k: nat, n: nat, m: nat): int
    requires k < n && m <= k && m <= |steps| && RowsFit(steps, n)
  {
    if m == 0 then 0
    else PathTerms(steps, k, n, m - 1) + Signed(steps[|steps| - m].taken, steps[|steps| - m].row[n - k + m - 1])
  }

  function Min(a: nat, b: nat): nat {
    if a < b then a else b
  }

  /** One more prediction extends every partial sum by its own term. */
  lemma PathDotSnoc(steps: seq<Step>, s: Step, k: nat, n: nat)
    requires 1 <= k < n && RowsFit(steps, n) && |s.row| == n
    ensures RowsFit(steps + [s], n)
    ensures PathDot(steps + [s], k, n) == PathDot(steps, k - 1, n) + Signed(s.taken, s.row[n - k])
  {
    assert (steps + [s])[..|steps|] == steps;
  }

  /** Peeling the newest prediction off the position-by-position sum. */
  lemma {:induction false} PathTermsNewest(steps: seq<Step>, k: nat, n: nat, m: nat)
    requires 1 <= m <= k < n && m <= |steps| && RowsFit(steps, n)
    ensures RowsFit(steps[..|steps| - 1], n)
    ensures PathTerms(steps, k, n, m) ==
            PathTerms(steps[..|steps| - 1], k - 1, n, m - 1) + Signed(steps[|steps| - 1].taken, steps[|steps| - 1].row[n - k])
  {
    var init := steps[..|steps| - 1];
    assert RowsFit(init, n) by {
      forall i | 0 <= i < |init| ensures |init[i].row| == n {
        assert init[i] == steps[i];
      }
    }
    if m > 1 {
      PathTermsNewest(steps, k, n, m - 1);
      assert init[|init| - (m - 1)] == steps[|steps| - m];
    }
  }

  /**
   * The partial sums the predictor prepares ahead of time are the path-based sums: partial
   * sum `k` holds one term for each of the last `k` predictions (fewer at the start of a
   * run). With `k == n - 1` the prediction `j` places back contributes column `j`.
   */
  lemma {:induction false} PathDotIsPathTerms(steps: seq<Step>, k: nat, n: nat)
    requires k < n && RowsFit(steps, n)
    ensures PathDot(steps, k, n) == PathTerms(steps, k, n, Min(k, |steps|))
  {
    if k != 0 && steps != [] {
      var init := steps[..|steps| - 1];
      PathTermsNewest(steps, k, n, Min(k, |steps|));
      PathDotIsPathTerms(init, k - 1, n);
      assert Min(k - 1, |init|) == Min(k, |steps|) - 1;
    }
  }

  class FPBNP {
    const numberOfPerceptrons: nat
    const historyLength: nat
    const counterBits: nat
    const threshold: int
    const maximumWeightValue: int
    const minimumWeightValue: int
    /** `weights[i, 0]` is row `i`'s bias; `weights[i, j]` weighs the branch `j` places back. */
    const weights: array2<int>
    /** Position 0 is never written; position `j >= 1` holds the outcome `j` branches back. */
    const globalHistory: array<bool>
    const knownGlobalHistory: array<bool>
    const globalHistoryCopy: array<bool>
    const shiftVector: array<int>
    const knownShiftVector: array<int>
    /** Position `j` holds the row of the branch `j` places back; position 0 the current one. */
    const branchIndexHistory: array<int>
    const knownBranchIndexHistory: array<int>
    const branchIndexHistoryCopy: array<int>
    var prediction: bool
    var outputSum: int
    var branchIndex: nat
    /** The predictions since the last reset as the speculative partial sums saw them. */
    ghost var speculated: seq<Step>
    /** The same with the outcomes, as the recovery partial sums saw them. */
    ghost var known: seq<Step>

    ghost predicate Valid()
      reads this, weights, globalHistory, knownGlobalHistory, globalHistoryCopy, shiftVector, knownShiftVector,
            branchIndexHistory, knownBranchIndexHistory, branchIndexHistoryCopy
    {
      Shape() && branchIndex < numberOfPerceptrons && PathsInRange() && WeightsInRange() && SumsTrack()
    }

    /** The configuration, the sizes of the arrays and which arrays are distinct. */
    ghost predicate Shape() {
      PERCEPTRONS_MINIMUM <= numberOfPerceptrons <= PERCEPTRONS_MAXIMUM &&
      COUNTER_BITS_MINIMUM <= counterBits <= COUNTER_BITS_MAXIMUM &&
      HISTORY_LENGTH_MINIMUM <= historyLength <= HISTORY_LENGTH_MAXIMUM &&
      maximumWeightValue == Pow2(counterBits - 1) - 1 && minimumWeightValue == -(maximumWeightValue + 1) &&
      weights.Length0 == numberOfPerceptrons && weights.Length1 == historyLength + 1 &&
      globalHistory.Length == historyLength + 1 && knownGlobalHistory.Length == historyLength + 1 &&
      globalHistoryCopy.Length == historyLength + 1 &&
      shiftVector.Length == historyLength + 1 && knownShiftVector.Length == historyLength + 1 &&
      branchIndexHistory.Length == historyLength + 1 && knownBranchIndexHistory.Length == historyLength + 1 &&
      branchIndexHistoryCopy.Length == historyLength + 1 &&
      globalHistory != knownGlobalHistory && globalHistory != globalHistoryCopy && knownGlobalHistory != globalHistoryCopy &&
      shiftVector != knownShiftVector && shiftVector != branchIndexHistory && shiftVector != knownBranchIndexHistory &&
      shiftVector != branchIndexHistoryCopy && knownShiftVector != branchIndexHistory &&
      knownShiftVector != knownBranchIndexHistory && knownShiftVector != branchIndexHistoryCopy &&
      branchIndexHistory != knownBranchIndexHistory && branchIndexHistory != branchIndexHistoryCopy &&
      knownBranchIndexHistory != branchIndexHistoryCopy
    }

    /** Every row on the three paths is a row of the weights. */
    ghost predicate PathsInRange()
      reads branchIndexHistory, knownBranchIndexHistory, branchIndexHistoryCopy
    {
      (forall j :: 0 <= j < branchIndexHistory.Length ==> 0 <= branchIndexHistory[j] < numberOfPerceptrons) &&
      (forall j :: 0 <= j < knownBranchIndexHistory.Length ==> 0 <= knownBranchIndexHistory[j] < numberOfPerceptrons) &&
      (forall j :: 0 <= j < branchIndexHistoryCopy.Length ==> 0 <= branchIndexHistoryCopy[j] < numberOfPerceptrons)
    }

    /** The weights stay in `[minimumWeightValue, maximumWeightValue]`. */
    ghost predicate WeightsInRange()
      reads weights
    {
      forall i, j :: 0 <= i < weights.Length0 && 0 <= j < weights.Length1 ==>
        minimumWeightValue <= weights[i, j] <= maximumWeightValue
    }

    /** Both sets of partial sums are the path-based sums of their runs of predictions since the last reset. */
    ghost predicate SumsTrack()
      reads this, shiftVector, knownShiftVector
    {
      RowsFit(speculated, historyLength + 1) && RowsFit(known, historyLength + 1) &&
      shiftVector.Length == historyLength + 1 && knownShiftVector.Length == historyLength + 1 &&
      (forall k :: 0 <= k <= historyLength ==> shiftVector[k] == PathDot(speculated, k, historyLength + 1)) &&
      (forall k :: 0 <= k <= historyLength ==> knownShiftVector[k] == PathDot(known, k, historyLength + 1))
    }

    /** Row `r` of the weights, bias first. */
    function Row(r: nat): (row: seq<int>)
      reads weights
      ensures |row| == weights.Length1
      ensures r < weights.Length0 ==> forall j :: 0 <= j < weights.Length1 ==> row[j] == weights[r, j]
    {
      seq(weights.Length1, j reads weights => if r < weights.Length0 && 0 <= j < weights.Length1 then weights[r, j] else 0)
    }

    /** The weights the learning rule trains: column `j` of the row `j` places back on the path. */
    function PathWeights(path: seq<int>): seq<int>
      reads weights
    {
      seq(historyLength, i reads weights =>
        if 0 <= i && i + 1 < |path| && 0 <= path[i + 1] < weights.Length0 && i + 1 < weights.Length1
        then weights[path[i + 1], i + 1] else 0)
    }

    /** The output the learning rule trains: row `r`'s bias plus the path weights signed by the history. */
    function LearnedOutput(r: nat, path: seq<int>, history: seq<bool>): int
      reads weights
      requires r < weights.Length0 && 1 <= weights.Length1
      requires |history| == historyLength + 1
    {
      weights[r, 0] + DotTo(PathWeights(path), history[1..], historyLength)
    }

    /** The learning threshold, computed in floating point from the history length, is taken as given. */
    constructor (numberOfPerceptrons: nat, counterBits: nat, historyLength: nat, threshold: int)
      requires PERCEPTRONS_MINIMUM <= numberOfPerceptrons <= PERCEPTRONS_MAXIMUM
      requires COUNTER_BITS_MINIMUM <= counterBits <= COUNTER_BITS_MAXIMUM
      requires HISTORY_LENGTH_MINIMUM <= historyLength <= HISTORY_LENGTH_MAXIMUM
      ensures Valid()
      ensures this.numberOfPerceptrons == numberOfPerceptrons && this.counterBits == counterBits
      ensures this.historyLength == historyLength && this.threshold == threshold
      ensures maximumWeightValue == Pow2(counterBits - 1) - 1 && minimumWeightValue == -(Pow2(counterBits - 1) as int)
      ensures speculated == [] && known == []
      ensures forall i, j :: 0 <= i < weights.Length0 && 0 <= j < weights.Length1 ==> weights[i, j] == 0
    {
      this.numberOfPerceptrons := numberOfPerceptrons;
      this.historyLength := historyLength;
      this.counterBits := counterBits;
      this.threshold := threshold;
      knownGlobalHistory := new bool[historyLength + 1](_ => false);
      globalHistory := new bool[historyLength + 1](_ => false);
      weights := new int[numberOfPerceptrons, historyLength + 1]((_, _) => 0);
      shiftVector := new int[historyLength + 1](_ => 0);
      knownShiftVector := new int[historyLength + 1](_ => 0);
      branchIndexHistoryCopy := new int[historyLength + 1](_ => 0);
      globalHistoryCopy := new bool[historyLength + 1](_ => false);
      knownBranchIndexHistory := new int[historyLength + 1](_ => 0);
      branchIndexHistory := new int[historyLength + 1](_ => 0);
      maximumWeightValue := Pow2(counterBits - 1) - 1;
      minimumWeightValue := -(Pow2(counterBits - 1) as int);
      prediction := false;
      outputSum := 0;
      branchIndex := 0;
      speculated := [];
      known := [];
    }

    /** The speculative loop: adds the selected row, in direction `taken`, to every partial sum, moving each one up. */
    method Speculate(vector: array<int>, taken: bool)
      requires branchIndex < weights.Length0 && weights.Length1 == historyLength + 1 && vector.Length == historyLength + 1
      modifies vector
      ensures vector[0] == 0
      ensures forall k :: 1 <= k <= historyLength ==>
                vector[k] == old(vector[..])[k - 1] + Signed(taken, weights[branchIndex, historyLength + 1 - k])
    {
      ghost var before := vector[..];
      var i := 1;
      while i <= historyLength
        invariant 1 <= i <= historyLength + 1
        invariant forall k :: historyLength - i + 1 < k <= historyLength ==>
                    vector[k] == before[k - 1] + Signed(taken, weights[branchIndex, historyLength + 1 - k])
        invariant forall k :: 0 <= k <= historyLength - i + 1 ==> vector[k] == before[k]
      {
        var shiftVectorIndex := historyLength - i;
        if taken {
          vector[shiftVectorIndex + 1] := vector[shiftVectorIndex] + weights[branchIndex, i];
        } else {
          vector[shiftVectorIndex + 1] := vector[shiftVectorIndex] - weights[branchIndex, i];
        }
        i := i + 1;
      }
      vector[0] := 0;
    }

    /** Copies the path and the speculative history for the update to learn from. */
    method CopyHistories()
      requires Valid()
      modifies branchIndexHistoryCopy, globalHistoryCopy
      ensures Valid()
      ensures branchIndexHistoryCopy[..] == branchIndexHistory[..] && globalHistoryCopy[..] == globalHistory[..]
    {
      var i := 0;
      while i <= historyLength
        invariant 0 <= i <= historyLength + 1
        invariant Valid()
        invariant forall j :: 0 <= j < i ==> branchIndexHistoryCopy[j] == branchIndexHistory[j]
        invariant forall j :: 0 <= j < i ==> globalHistoryCopy[j] == globalHistory[j]
      {
        branchIndexHistoryCopy[i] := branchIndexHistory[i];
        globalHistoryCopy[i] := globalHistory[i];
        i := i + 1;
      }
    }

    /** Pushes the current row onto the front of the speculative path. */
    method ShiftBranchIndex()
      requires Valid()
      modifies branchIndexHistory
      ensures Valid()
      ensures branchIndexHistory[..] == [branchIndex] + old(branchIndexHistory[..])[..historyLength]
    {
      ShiftIntoFirst(branchIndexHistory, branchIndex as int);
      assert forall j :: 0 <= j < branchIndexHistory.Length ==> branchIndexHistory[j] == branchIndexHistory[..][j];
    }

    /** Selects the branch's row, pushes it onto the speculative path and copies the path and history for the update. */
    method Select(info: BranchInfo)
      requires Valid()
      modifies this, branchIndexHistory, branchIndexHistoryCopy, globalHistoryCopy
      ensures Valid()
      ensures branchIndex == BranchIndex(info.address as int, numberOfPerceptrons)
      ensures branchIndexHistory[..] == [branchIndex as int] + old(branchIndexHistory[..])[..historyLength]
      ensures branchIndexHistoryCopy[..] == branchIndexHistory[..] && globalHistoryCopy[..] == globalHistory[..]
      ensures speculated == old(speculated) && known == old(known) && prediction == old(prediction)
    {
      branchIndex := BranchIndex(info.address as int, numberOfPerceptrons);
      ShiftBranchIndex();
      CopyHistories();
    }

    /** Adds the selected row, in direction `taken`, to the speculative partial sums and records the step. */
    method AdvanceSpeculated(taken: bool)
      requires Valid()
      modifies this, shiftVector
      ensures Valid()
      ensures shiftVector[0] == 0
      ensures forall k :: 1 <= k <= historyLength ==>
                shiftVector[k] == old(shiftVector[..])[k - 1] + Signed(taken, weights[branchIndex, historyLength + 1 - k])
      ensures speculated == old(speculated) + [Step(Row(branchIndex), taken)] && known == old(known)
      ensures branchIndex == old(branchIndex) && prediction == old(prediction) && outputSum == old(outputSum)
    {
      ghost var s := Step(Row(branchIndex), taken);
      Speculate(shiftVector, taken);
      forall k | 1 <= k <= historyLength
        ensures shiftVector[k] == PathDot(speculated + [s], k, historyLength + 1)
      {
        PathDotSnoc(speculated, s, k, historyLength + 1);
      }
      speculated := speculated + [s];
    }

    /** Adds the selected row, in the direction of the outcome, to the known partial sums and records the step. */
    method AdvanceKnown(taken: bool)
      requires Valid()
      modifies this, knownShiftVector
      ensures Valid()
      ensures knownShiftVector[0] == 0
      ensures forall k :: 1 <= k <= historyLength ==>
                knownShiftVector[k] == old(knownShiftVector[..])[k - 1] + Signed(taken, weights[branchIndex, historyLength + 1 - k])
      ensures known == old(known) + [Step(Row(branchIndex), taken)] && speculated == old(speculated)
      ensures branchIndex == old(branchIndex) && prediction == old(prediction) && outputSum == old(outputSum)
    {
      ghost var s := Step(Row(branchIndex), taken);
      Speculate(knownShiftVector, taken);
      forall k | 1 <= k <= historyLength
        ensures knownShiftVector[k] == PathDot(known + [s], k, historyLength + 1)
      {
        PathDotSnoc(known, s, k, historyLength + 1);
      }
      known := known + [s];
    }

    /**
     * Predicts from the bias of the selected row plus the partial sum prepared by the
     * earlier predictions, then prepares the partial sums for the following branches and
     * records the prediction as speculative history.
     */
    method Speculation()
      requires Valid()
      modifies this, shiftVector, globalHistory
      ensures Valid()
      ensures outputSum == weights[branchIndex, 0] + PathDot(old(speculated), historyLength, historyLength + 1)
      ensures prediction == (outputSum >= 0)
      ensures shiftVector[0] == 0
      ensures forall k :: 1 <= k <= historyLength ==>
                shiftVector[k] == old(shiftVector[..])[k - 1] + Signed(prediction, weights[branchIndex, historyLength + 1 - k])
      ensures speculated == old(speculated) + [Step(Row(branchIndex), prediction)] && known == old(known)
      ensures globalHistory[..] == [old(globalHistory[0]), prediction] + old(globalHistory[..])[1..historyLength]
      ensures branchIndex == old(branchIndex)
    {
      outputSum := weights[branchIndex, 0] + shiftVector[historyLength];
      prediction := outputSum >= 0;
      AdvanceSpeculated(prediction);
      ShiftIntoSecond(globalHistory, prediction);
    }

    /**
     * Predicts from the bias of the branch's row plus the partial sum prepared by the
     * earlier predictions, which is the path-based sum over them; then prepares the partial
     * sums for the following branches and records the prediction as speculative history.
     */
    method PredictBranch(info: BranchInfo) returns (p: bool)
      requires Valid()
      modifies this, branchIndexHistory, branchIndexHistoryCopy, globalHistoryCopy, shiftVector, globalHistory
      ensures Valid()
      ensures branchIndex == BranchIndex(info.address as int, numberOfPerceptrons)
      ensures branchIndexHistory[..] == [branchIndex as int] + old(branchIndexHistory[..])[..historyLength]
      ensures branchIndexHistoryCopy[..] == branchIndexHistory[..] && globalHistoryCopy[..] == old(globalHistory[..])
      ensures outputSum == weights[branchIndex, 0] + PathDot(old(speculated), historyLength, historyLength + 1)
      ensures p == prediction == (outputSum >= 0)
      ensures shiftVector[0] == 0
      ensures forall k :: 1 <= k <= historyLength ==>
                shiftVector[k] == old(shiftVector[..])[k - 1] + Signed(prediction, weights[branchIndex, historyLength + 1 - k])
      ensures speculated == old(speculated) + [Step(Row(branchIndex), prediction)] && known == old(known)
      ensures globalHistory[..] == [old(globalHistory[0]), prediction] + old(globalHistory[..])[1..historyLength]
    {
      Select(info);
      Speculation();
      return prediction;
    }

    /** Records the outcome in the known history and the current row in the known path. */
    method RecordPath(outcome: bool)
      requires Valid()
      modifies knownGlobalHistory, knownBranchIndexHistory
      ensures Valid()
      ensures knownGlobalHistory[..] == [old(knownGlobalHistory[0]), outcome] + old(knownGlobalHistory[..])[1..historyLength]
      ensures knownBranchIndexHistory[..] == [branchIndex as int] + old(knownBranchIndexHistory[..])[..historyLength]
    {
      ShiftIntoSecond(knownGlobalHistory, outcome);
      ShiftIntoFirst(knownBranchIndexHistory, branchIndex as int);
      assert forall j :: 0 <= j < knownBranchIndexHistory.Length ==> knownBranchIndexHistory[j] == knownBranchIndexHistory[..][j];
    }

    /** Replaces the speculative partial sums, history and path by the known ones. */
    method Recover()
      requires Valid()
      modifies shiftVector, globalHistory, branchIndexHistory
      ensures Shape() && PathsInRange()
      ensures shiftVector[..] == knownShiftVector[..] && globalHistory[..] == knownGlobalHistory[..]
      ensures branchIndexHistory[..] == knownBranchIndexHistory[..]
    {
      var j := 0;
      while j <= historyLength
        invariant 0 <= j <= historyLength + 1
        invariant forall k :: 0 <= k < j ==> shiftVector[k] == knownShiftVector[k]
        invariant forall k :: 0 <= k < j ==> globalHistory[k] == knownGlobalHistory[k]
        invariant forall k :: 0 <= k < j ==> branchIndexHistory[k] == knownBranchIndexHistory[k]
        invariant forall k :: 0 <= k < branchIndexHistory.Length ==> 0 <= branchIndexHistory[k] < numberOfPerceptrons
      {
        shiftVector[j] := knownShiftVector[j];
        globalHistory[j] := knownGlobalHistory[j];
        branchIndexHistory[j] := knownBranchIndexHistory[j];
        j := j + 1;
      }
    }

    /**
     * Records the outcome in the known partial sums, history and path; on a misprediction
     * the speculative ones are replaced by them.
     */
    method Resolve(outcome: bool)
      requires Valid()
      modifies this, knownShiftVector, knownGlobalHistory, knownBranchIndexHistory, shiftVector, globalHistory, branchIndexHistory
      ensures Valid()
      ensures known == old(known) + [Step(Row(branchIndex), outcome)]
      ensures knownShiftVector[0] == 0
      ensures forall k :: 1 <= k <= historyLength ==>
                knownShiftVector[k] == old(knownShiftVector[..])[k - 1] + Signed(outcome, weights[branchIndex, historyLength + 1 - k])
      ensures knownBranchIndexHistory[..] == [branchIndex as int] + old(knownBranchIndexHistory[..])[..historyLength]
      ensures knownGlobalHistory[..] == [old(knownGlobalHistory[0]), outcome] + old(knownGlobalHistory[..])[1..historyLength]
      ensures outcome != prediction ==>
                speculated == known && shiftVector[..] == knownShiftVector[..] &&
                globalHistory[..] == knownGlobalHistory[..] && branchIndexHistory[..] == knownBranchIndexHistory[..]
      ensures outcome == prediction ==>
                speculated == old(speculated) && shiftVector[..] == old(shiftVector[..]) &&
                globalHistory[..] == old(globalHistory[..]) && branchIndexHistory[..] == old(branchIndexHistory[..])
      ensures branchIndex == old(branchIndex) && prediction == old(prediction) && outputSum == old(outputSum)
    {
      AdvanceKnown(outcome);
      RecordPath(outcome);
      if outcome != prediction {
        Recover();
        speculated := known;
      }
    }

    /** Trains the bias of the current row toward the outcome. */
    method TrainBias(outcome: bool)
      requires Valid()
      modifies weights
      ensures Valid()
      ensures weights[branchIndex, 0] == Train(old(weights[branchIndex, 0]), outcome, minimumWeightValue, maximumWeightValue)
      ensures forall a, j :: 0 <= a < weights.Length0 && 0 <= j < weights.Length1 && (a != branchIndex || j != 0) ==>
                weights[a, j] == old(weights[a, j])
    {
      TrainInRange(weights[branchIndex, 0], outcome, minimumWeightValue, maximumWeightValue);
      if outcome {
        if weights[branchIndex, 0] < maximumWeightValue {
          weights[branchIndex, 0] := weights[branchIndex, 0] + 1;
        }
      } else {
        if weights[branchIndex, 0] > minimumWeightValue {
          weights[branchIndex, 0] := weights[branchIndex, 0] - 1;
        }
      }
    }

    /** Trains column `j` of the row `j` places back on the copied path toward agreeing with the copied history. */
    method TrainWeights(outcome: bool)
      requires Valid()
      modifies weights
      ensures Valid()
      ensures forall j :: 1 <= j <= historyLength ==>
                weights[branchIndexHistoryCopy[j], j] ==
                Train(old(weights[branchIndexHistoryCopy[j], j]), outcome == globalHistoryCopy[j], minimumWeightValue, maximumWeightValue)
      ensures forall a, c :: 0 <= a < weights.Length0 && 0 <= c < weights.Length1 && (c == 0 || a != branchIndexHistoryCopy[c]) ==>
                weights[a, c] == old(weights[a, c])
    {
      var j := 1;
      while j <= historyLength
        invariant 1 <= j <= historyLength + 1
        invariant Valid()
        invariant forall i :: 1 <= i < j ==>
                    weights[branchIndexHistoryCopy[i], i] ==
                    Train(old(weights[branchIndexHistoryCopy[i], i]), outcome == globalHistoryCopy[i], minimumWeightValue, maximumWeightValue)
        invariant forall a, c :: 0 <= a < weights.Length0 && 0 <= c < weights.Length1 && (c == 0 || j <= c || a != branchIndexHistoryCopy[c]) ==>
                    weights[a, c] == old(weights[a, c])
      {
        var k := branchIndexHistoryCopy[j];
        TrainInRange(weights[k, j], outcome == globalHistoryCopy[j], minimumWeightValue, maximumWeightValue);
        if outcome == globalHistoryCopy[j] {
          if weights[k, j] < maximumWeightValue {
            weights[k, j] := weights[k, j] + 1;
          }
        } else {
          if weights[k, j] > minimumWeightValue {
            weights[k, j] := weights[k, j] - 1;
          }
        }
        j := j + 1;
      }
    }

    /**
     * The perceptron learning rule on the path: the bias toward the outcome and each path
     * weight toward agreeing with its copied history bit. The learned output moves toward
     * the outcome.
     */
    method Learn(outcome: bool)
      requires Valid()
      modifies weights
      ensures Valid()
      ensures weights[branchIndex, 0] == Train(old(weights[branchIndex, 0]), outcome, minimumWeightValue, maximumWeightValue)
      ensures forall j :: 1 <= j <= historyLength ==>
                weights[branchIndexHistoryCopy[j], j] ==
                Train(old(weights[branchIndexHistoryCopy[j], j]), outcome == globalHistoryCopy[j], minimumWeightValue, maximumWeightValue)
      ensures forall a, c ::
                0 <= a < weights.Length0 && 0 <= c < weights.Length1 && (c != 0 || a != branchIndex) && (c == 0 || a != branchIndexHistoryCopy[c]) ==>
                weights[a, c] == old(weights[a, c])
      ensures Toward(outcome, LearnedOutput(branchIndex, branchIndexHistoryCopy[..], globalHistoryCopy[..])) >=
              Toward(outcome, old(LearnedOutput(branchIndex, branchIndexHistoryCopy[..], globalHistoryCopy[..])))
    {
      ghost var before := PathWeights(branchIndexHistoryCopy[..]);
      ghost var bias := weights[branchIndex, 0];
      TrainBias(outcome);
      TrainWeights(outcome);
      BiasedOutputToward(bias, before, PathWeights(branchIndexHistoryCopy[..]), globalHistoryCopy[1..], outcome,
                         minimumWeightValue, maximumWeightValue, historyLength);
    }

    /**
     * Resolves the prediction against the outcome; on a misprediction or a weak output the
     * path weights learn.
     */
    method Update(branch: Branch)
      requires Valid()
      modifies this, weights, knownShiftVector, knownGlobalHistory, knownBranchIndexHistory,
               shiftVector, globalHistory, branchIndexHistory
      ensures Valid()
      ensures known == old(known) + [Step(old(Row(branchIndex)), branch.taken)]
      ensures knownBranchIndexHistory[..] == [branchIndex as int] + old(knownBranchIndexHistory[..])[..historyLength]
      ensures knownGlobalHistory[..] == [old(knownGlobalHistory[0]), branch.taken] + old(knownGlobalHistory[..])[1..historyLength]
      ensures branch.taken != prediction ==>
                speculated == known && shiftVector[..] == knownShiftVector[..] &&
                globalHistory[..] == knownGlobalHistory[..] && branchIndexHistory[..] == knownBranchIndexHistory[..]
      ensures branch.taken == prediction ==>
                speculated == old(speculated) && shiftVector[..] == old(shiftVector[..]) &&
                globalHistory[..] == old(globalHistory[..]) && branchIndexHistory[..] == old(branchIndexHistory[..])
      ensures Learns(branch.taken, prediction, outputSum, threshold) ==>
                weights[branchIndex, 0] == Train(old(weights[branchIndex, 0]), branch.taken, minimumWeightValue, maximumWeightValue)
      ensures Learns(branch.taken, prediction, outputSum, threshold) ==>
                forall j :: 1 <= j <= historyLength ==>
                  weights[branchIndexHistoryCopy[j], j] ==
                  Train(old(weights[branchIndexHistoryCopy[j], j]), branch.taken == globalHistoryCopy[j],
                        minimumWeightValue, maximumWeightValue)
      ensures Learns(branch.taken, prediction, outputSum, threshold) ==>
                forall a, c ::
                  0 <= a < weights.Length0 && 0 <= c < weights.Length1 &&
                  (c != 0 || a != branchIndex) && (c == 0 || a != branchIndexHistoryCopy[c]) ==>
                  weights[a, c] == old(weights[a, c])
      ensures Learns(branch.taken, prediction, outputSum, threshold) ==>
                Toward(branch.taken, LearnedOutput(branchIndex, branchIndexHistoryCopy[..], globalHistoryCopy[..])) >=
                Toward(branch.taken, old(LearnedOutput(branchIndex, branchIndexHistoryCopy[..], globalHistoryCopy[..])))
      ensures !Learns(branch.taken, prediction, outputSum, threshold) ==> unchanged(weights)
    {
      Resolve(branch.taken);
      if branch.taken != prediction || Abs(outputSum) < threshold {
        Learn(branch.taken);
      }
    }

    /** Zeroes the weights. */
    method ResetWeights()
      requires Valid()
      modifies weights
      ensures Valid()
      ensures forall i, j :: 0 <= i < weights.Length0 && 0 <= j < weights.Length1 ==> weights[i, j] == 0
    {
      var i := 0;
      while i < numberOfPerceptrons
        invariant 0 <= i <= numberOfPerceptrons
        invariant Valid()
        invariant forall a, j :: 0 <= a < i && 0 <= j < weights.Length1 ==> weights[a, j] == 0
      {
        var j := 0;
        while j <= historyLength
          invariant 0 <= j <= historyLength + 1
          invariant Valid()
          invariant forall a, k :: 0 <= a < i && 0 <= k < weights.Length1 ==> weights[a, k] == 0
          invariant forall k :: 0 <= k < j ==> weights[i, k] == 0
        {
          weights[i, j] := 0;
          j := j + 1;
        }
        i := i + 1;
      }
    }

    /** Zeroes both sets of partial sums, both histories and both paths. */
    method ResetRegisters()
      requires Shape() && PathsInRange()
      modifies shiftVector, knownShiftVector, knownGlobalHistory, globalHistory, knownBranchIndexHistory, branchIndexHistory
      ensures Shape() && PathsInRange()
      ensures forall j :: 0 <= j <= historyLength ==>
                shiftVector[j] == 0 && knownShiftVector[j] == 0 && !knownGlobalHistory[j] && !globalHistory[j] &&
                knownBranchIndexHistory[j] == 0 && branchIndexHistory[j] == 0
    {
      var j := 0;
      while j <= historyLength
        invariant 0 <= j <= historyLength + 1
        invariant forall k :: 0 <= k < j ==>
                    shiftVector[k] == 0 && knownShiftVector[k] == 0 && !knownGlobalHistory[k] && !globalHistory[k] &&
                    knownBranchIndexHistory[k] == 0 && branchIndexHistory[k] == 0
        invariant PathsInRange()
      {
        shiftVector[j] := 0;
        knownShiftVector[j] := 0;
        knownGlobalHistory[j] := false;
        globalHistory[j] := false;
        knownBranchIndexHistory[j] := 0;
        branchIndexHistory[j] := 0;
        j := j + 1;
      }
    }

    /** Zeroes the weights, both sets of partial sums, both histories and both paths. */
    method Reset()
      requires Valid()
      modifies this, weights, shiftVector, knownShiftVector, knownGlobalHistory, globalHistory,
               knownBranchIndexHistory, branchIndexHistory
      ensures Valid()
      ensures forall i, j :: 0 <= i < weights.Length0 && 0 <= j < weights.Length1 ==> weights[i, j] == 0
      ensures speculated == [] && known == []
      ensures forall j :: 0 <= j <= historyLength ==>
                shiftVector[j] == 0 && knownShiftVector[j] == 0 && !knownGlobalHistory[j] && !globalHistory[j] &&
                knownBranchIndexHistory[j] == 0 && branchIndexHistory[j] == 0
    {
      ResetWeights();
      ResetRegisters();
      speculated := [];
      known := [];
    }
  }
}
