/**
 * SIP3: per branch location, `maximumInertia` inertial states, level `k` moving within
 * `[-k, k - 1]`, each voting with a trained weight; the prediction is the sign of the
 * weighted vote. Training happens on a misprediction or a weak vote, and the threshold
 * that decides "weak" adapts through a small saturating counter.
 */
module SIP3Predictor {
  import opened Bits
  import opened Branches
  import opened Locations
  import opened SIP1Predictor
  import opened PerceptronLearning

  const MINIMUM_THRESHOLD := 16
  const MAXIMUM_THRESHOLD := 512
  const MAXIMUM_INERTIA_MINIMUM := 2
  const MAXIMUM_INERTIA_MAXIMUM := 20
  const COUNTER_BITS_MINIMUM := 2
  const COUNTER_BITS_MAXIMUM := 12
  const BRANCH_LOCATIONS_MINIMUM := 1
  const BRANCH_LOCATIONS_MAXIMUM := 1048576
  const INITIAL_THRESHOLD_MINIMUM := 0
  const INITIAL_THRESHOLD_MAXIMUM := 1024
  const ADAPT_BITS_MINIMUM := 0
  const ADAPT_BITS_MAXIMUM := 16

  /** The states level `k` can reach from 0: `[-k, k - 1]`, and just 0 at level 0. */
  predicate LevelRange(state: int, k: nat) {
    -(k as int) <= state <= (if k == 0 then 0 else k - 1)
  }

  lemma LevelStepInRange(state: int, taken: bool, k: nat)
    requires LevelRange(state, k)
    ensures LevelRange(InertiaStep(state, taken, k), k)
  {
  }

  /** Level 0 never moves: it always votes taken. */
  lemma LevelZeroFixed(state: int, taken: bool)
    requires LevelRange(state, 0)
    ensures InertiaStep(state, taken, 0) == 0 == state
  {
  }

  /** The adaptive part of the update: the adapt counter and the update threshold. */
  datatype Adaptation = Adaptation(count: int, threshold: int)

  /**
   * One adaptation step: a misprediction counts up, and past `countMax` restarts the count and
   * raises the threshold (up to 512); a weak correct vote counts down twice, and past
   * `-countMax - 1` restarts the count and lowers the threshold (down to 16).
   */
  function Adapt(count: int, threshold: int, mispredicted: bool, weak: bool, countMax: int): (r: Adaptation)
    ensures mispredicted ==> r.count == (if count < countMax then count + 1 else 0)
    ensures mispredicted ==> (r.threshold == threshold + 1 <==> count >= countMax && threshold < MAXIMUM_THRESHOLD)
    ensures mispredicted ==> r.threshold == threshold || r.threshold == threshold + 1
    ensures !mispredicted && weak ==> r.count == (if count - 1 > -countMax - 1 then count - 2 else 0)
    ensures !mispredicted && weak ==>
              (r.threshold == threshold - 1 <==> count - 1 <= -countMax - 1 && threshold > MINIMUM_THRESHOLD)
    ensures !mispredicted && weak ==> r.threshold == threshold || r.threshold == threshold - 1
    ensures !mispredicted && !weak ==> r == Adaptation(count, threshold)
  {
    if mispredicted then
      if count < countMax then Adaptation(count + 1, threshold)
      else Adaptation(0, if threshold < MAXIMUM_THRESHOLD then threshold + 1 else threshold)
    else if weak then
      if count - 1 > -countMax - 1 then Adaptation(count - 2, threshold)
      else Adaptation(0, if threshold > MINIMUM_THRESHOLD then threshold - 1 else threshold)
    else Adaptation(count, threshold)
  }

  function Min(a: int, b: int): int { if a < b then a else b }
  function Max(a: int, b: int): int { if a > b then a else b }

  /** The thresholds reachable from `initial`: never above 512 unless it started there, never below 16 likewise. */
  predicate ThresholdBand(threshold: int, initial: int) {
    Min(initial, MINIMUM_THRESHOLD) <= threshold <= Max(initial, MAXIMUM_THRESHOLD)
  }

  /** The adapt counter stays in `[-countMax - 1, countMax]` and the threshold in its band. */
  lemma AdaptInRange(count: int, threshold: int, mispredicted: bool, weak: bool, countMax: int, initial: int)
    requires countMax >= 0 && -countMax - 1 <= count <= countMax
    requires ThresholdBand(threshold, initial)
    ensures -countMax - 1 <= Adapt(count, threshold, mispredicted, weak, countMax).count <= countMax
    ensures ThresholdBand(Adapt(count, threshold, mispredicted, weak, countMax).threshold, initial)
  {
  }

  /** `(1 << (thresholdAdaptBits - 1)) - 1`, or 0 when adaptation is off. */
  function AdaptCountMax(adaptBits: nat): (m: nat)
    requires adaptBits <= ADAPT_BITS_MAXIMUM
    ensures adaptBits == 0 ==> m == 0
    ensures adaptBits > 0 ==> m + 1 == Pow2(adaptBits - 1)
  {
    if adaptBits != 0 then Pow2(adaptBits - 1) - 1 else 0
  }

  class SIP3 {
    const branchLocations: nat
    const counterBits: nat
    const counterMax: int
    const maximumInertia: nat
    const initialThreshold: int
    const thresholdAdaptBits: nat
    const adaptThreshold: bool
    const thresholdAdaptCountMax: int
    /** `states[i, k]`: the inertial state of level `k` at location `i`. */
    const states: array2<int>
    /** `weights[i, k]`: the weight of that level's vote. */
    const weights: array2<int>
    var thresholdAdaptCount: int
    var updateThreshold: int
    var sum: int
    var prediction: bool

    ghost predicate Valid()
      reads this, states, weights
    {
      BRANCH_LOCATIONS_MINIMUM <= branchLocations <= BRANCH_LOCATIONS_MAXIMUM &&
      COUNTER_BITS_MINIMUM <= counterBits <= COUNTER_BITS_MAXIMUM &&
      MAXIMUM_INERTIA_MINIMUM <= maximumInertia <= MAXIMUM_INERTIA_MAXIMUM &&
      INITIAL_THRESHOLD_MINIMUM <= initialThreshold <= INITIAL_THRESHOLD_MAXIMUM &&
      ADAPT_BITS_MINIMUM <= thresholdAdaptBits <= ADAPT_BITS_MAXIMUM &&
      counterMax == Pow2(counterBits - 1) - 1 &&
      adaptThreshold == (thresholdAdaptBits != 0) &&
      thresholdAdaptCountMax == AdaptCountMax(thresholdAdaptBits) &&
      states != weights &&
      states.Length0 == branchLocations && states.Length1 == maximumInertia &&
      weights.Length0 == branchLocations && weights.Length1 == maximumInertia &&
      -thresholdAdaptCountMax - 1 <= thresholdAdaptCount <= thresholdAdaptCountMax &&
      ThresholdBand(updateThreshold, initialThreshold) &&
      (forall i, k :: 0 <= i < branchLocations && 0 <= k < maximumInertia ==> LevelRange(states[i, k], k)) &&
      (forall i, k :: 0 <= i < branchLocations && 0 <= k < maximumInertia ==>
         -counterMax - 1 <= weights[i, k] <= counterMax)
    }

    /** The weights of location `r`, level by level. */
    function WeightRow(r: nat): seq<int>
      reads weights
    {
      seq(weights.Length1, k reads weights => if r < weights.Length0 && 0 <= k < weights.Length1 then weights[r, k] else 0)
    }

    /** The votes of location `r`: level `k` votes taken while its state is non-negative. */
    function VoteRow(r: nat): seq<bool>
      reads states
    {
      seq(states.Length1, k reads states => if r < states.Length0 && 0 <= k < states.Length1 then states[r, k] >= 0 else true)
    }

    constructor (branchLocations: nat, counterBits: nat, maximumInertia: nat, initialThreshold: int, thresholdAdaptBits: nat)
      requires BRANCH_LOCATIONS_MINIMUM <= branchLocations <= BRANCH_LOCATIONS_MAXIMUM
      requires COUNTER_BITS_MINIMUM <= counterBits <= COUNTER_BITS_MAXIMUM
      requires MAXIMUM_INERTIA_MINIMUM <= maximumInertia <= MAXIMUM_INERTIA_MAXIMUM
      requires INITIAL_THRESHOLD_MINIMUM <= initialThreshold <= INITIAL_THRESHOLD_MAXIMUM
      requires ADAPT_BITS_MINIMUM <= thresholdAdaptBits <= ADAPT_BITS_MAXIMUM
      ensures Valid() && fresh(states) && fresh(weights)
      ensures this.branchLocations == branchLocations && this.counterBits == counterBits
      ensures this.maximumInertia == maximumInertia && this.initialThreshold == initialThreshold
      ensures this.thresholdAdaptBits == thresholdAdaptBits
      ensures thresholdAdaptCount == 0 && updateThreshold == initialThreshold && !prediction
      ensures forall i, k :: 0 <= i < branchLocations && 0 <= k < maximumInertia ==> states[i, k] == 0 && weights[i, k] == 0
    {
      this.branchLocations := branchLocations;
      this.maximumInertia := maximumInertia;
      this.initialThreshold := initialThreshold;
      this.thresholdAdaptBits := thresholdAdaptBits;
      updateThreshold := initialThreshold;
      thresholdAdaptCount := 0;
      thresholdAdaptCountMax := AdaptCountMax(thresholdAdaptBits);
      adaptThreshold := thresholdAdaptBits != 0;
      states := new int[branchLocations, maximumInertia]((_, _) => 0);
      weights := new int[branchLocations, maximumInertia]((_, _) => 0);
      this.counterBits := counterBits;
      counterMax := Pow2(counterBits - 1) - 1;
      sum := 0;
      prediction := false;
    }

    /** The weighted vote of the branch's location; taken when it is non-negative. */
    method PredictBranch(info: BranchInfo) returns (p: bool)
      requires Valid()
      modifies this
      ensures Valid()
      ensures unchanged(states) && unchanged(weights)
      ensures thresholdAdaptCount == old(thresholdAdaptCount) && updateThreshold == old(updateThreshold)
      ensures sum == DotTo(WeightRow(BranchIndex(info.address as int, branchLocations)),
                           VoteRow(BranchIndex(info.address as int, branchLocations)), maximumInertia)
      ensures p == prediction == (sum >= 0)
    {
      var branchIndex := BranchIndex(info.address as int, branchLocations);
      var total := 0;
      var inertia := 0;
      while inertia < maximumInertia
        invariant 0 <= inertia <= maximumInertia
        invariant total == DotTo(WeightRow(branchIndex), VoteRow(branchIndex), inertia)
      {
        if states[branchIndex, inertia] < 0 {
          total := total - weights[branchIndex, inertia];
        } else {
          total := total + weights[branchIndex, inertia];
        }
        inertia := inertia + 1;
      }
      sum := total;
      prediction := sum >= 0;
      return prediction;
    }

    /**
     * Trains every level of location `r`: each weight toward agreeing with the outcome (by its
     * state before the step), then each state one inertial step toward the outcome.
     */
    method TrainLocation(r: nat, taken: bool)
      requires Valid() && r < branchLocations
      modifies states, weights
      ensures Valid()
      ensures forall k :: 0 <= k < maximumInertia ==>
                weights[r, k] == Train(old(weights[r, k]), (old(states[r, k]) >= 0) == taken, -counterMax - 1, counterMax) &&
                states[r, k] == InertiaStep(old(states[r, k]), taken, k)
      ensures forall i, k :: 0 <= i < branchLocations && 0 <= k < maximumInertia && i != r ==>
                states[i, k] == old(states[i, k]) && weights[i, k] == old(weights[i, k])
    {
      var inertia := 0;
      while inertia < maximumInertia
        invariant 0 <= inertia <= maximumInertia
        invariant Valid()
        invariant forall k :: 0 <= k < inertia ==>
                    weights[r, k] == Train(old(weights[r, k]), (old(states[r, k]) >= 0) == taken, -counterMax - 1, counterMax) &&
                    states[r, k] == InertiaStep(old(states[r, k]), taken, k)
        invariant forall i, k :: 0 <= i < branchLocations && 0 <= k < maximumInertia && (i != r || k >= inertia) ==>
                    states[i, k] == old(states[i, k]) && weights[i, k] == old(weights[i, k])
      {
        TrainInRange(weights[r, inertia], (states[r, inertia] >= 0) == taken, -counterMax - 1, counterMax);
        LevelStepInRange(states[r, inertia], taken, inertia);
        if taken {
          if states[r, inertia] >= 0 {
            if weights[r, inertia] < counterMax {
              weights[r, inertia] := weights[r, inertia] + 1;
            }
          } else {
            if weights[r, inertia] > -counterMax - 1 {
              weights[r, inertia] := weights[r, inertia] - 1;
            }
          }
          if states[r, inertia] < inertia - 1 {
            states[r, inertia] := states[r, inertia] + 1;
          }
        } else {
          if states[r, inertia] < 0 {
            if weights[r, inertia] < counterMax {
              weights[r, inertia] := weights[r, inertia] + 1;
            }
          } else {
            if weights[r, inertia] > -counterMax - 1 {
              weights[r, inertia] := weights[r, inertia] - 1;
            }
          }
          if states[r, inertia] > -inertia {
            states[r, inertia] := states[r, inertia] - 1;
          }
        }
        inertia := inertia + 1;
      }
    }

    /**
     * Trains the branch's location when the vote was wrong or weaker than the threshold, then,
     * unless adaptation is off, adapts the threshold.
     */
    method Update(branch: Branch)
      requires Valid()
      modifies this, states, weights
      ensures Valid()
      ensures sum == old(sum) && prediction == old(prediction)
      ensures var r := BranchIndex(branch.info.address as int, branchLocations);
              forall k :: 0 <= k < maximumInertia ==>
                if Learns(branch.taken, prediction, sum, old(updateThreshold)) then
                  weights[r, k] == Train(old(weights[r, k]), (old(states[r, k]) >= 0) == branch.taken, -counterMax - 1, counterMax) &&
                  states[r, k] == InertiaStep(old(states[r, k]), branch.taken, k)
                else
                  weights[r, k] == old(weights[r, k]) && states[r, k] == old(states[r, k])
      ensures forall i, k ::
                0 <= i < branchLocations && 0 <= k < maximumInertia &&
                i != BranchIndex(branch.info.address as int, branchLocations) ==>
                states[i, k] == old(states[i, k]) && weights[i, k] == old(weights[i, k])
      ensures adaptThreshold ==>
                Adaptation(thresholdAdaptCount, updateThreshold) ==
                Adapt(old(thresholdAdaptCount), old(updateThreshold), branch.taken != prediction,
                      Abs(sum) < old(updateThreshold), thresholdAdaptCountMax)
      ensures !adaptThreshold ==> thresholdAdaptCount == old(thresholdAdaptCount) && updateThreshold == old(updateThreshold)
    {
      var mapare := BranchIndex(branch.info.address as int, branchLocations);
      if Abs(sum) < updateThreshold || prediction != branch.taken {
        TrainLocation(mapare, branch.taken);
      }
      if adaptThreshold {
        AdaptInRange(thresholdAdaptCount, updateThreshold, branch.taken != prediction,
                     Abs(sum) < updateThreshold, thresholdAdaptCountMax, initialThreshold);
        if branch.taken != prediction {
          if thresholdAdaptCount < thresholdAdaptCountMax {
            thresholdAdaptCount := thresholdAdaptCount + 1;
          } else {
            thresholdAdaptCount := 0;
            if updateThreshold < MAXIMUM_THRESHOLD {
              updateThreshold := updateThreshold + 1;
            }
          }
        } else {
          if Abs(sum) < updateThreshold {
            thresholdAdaptCount := thresholdAdaptCount - 1;
            if thresholdAdaptCount > -thresholdAdaptCountMax - 1 {
              thresholdAdaptCount := thresholdAdaptCount - 1;
            } else {
              thresholdAdaptCount := 0;
              if updateThreshold > MINIMUM_THRESHOLD {
                updateThreshold := updateThreshold - 1;
              }
            }
          }
        }
      }
    }

    /** Restores the initial threshold, a zero adapt count, and zero states and weights. */
    method Reset()
      requires Valid()
      modifies this, states, weights
      ensures Valid()
      ensures thresholdAdaptCount == 0 && updateThreshold == initialThreshold
      ensures forall i, k :: 0 <= i < branchLocations && 0 <= k < maximumInertia ==> states[i, k] == 0 && weights[i, k] == 0
    {
      thresholdAdaptCount := 0;
      updateThreshold := initialThreshold;
      var i := 0;
      while i < branchLocations
        invariant 0 <= i <= branchLocations
        invariant Valid() && thresholdAdaptCount == 0 && updateThreshold == initialThreshold
        invariant forall a, k :: 0 <= a < i && 0 <= k < maximumInertia ==> states[a, k] == 0 && weights[a, k] == 0
      {
        var j := 0;
        while j < maximumInertia
          invariant 0 <= j <= maximumInertia
          invariant Valid() && thresholdAdaptCount == 0 && updateThreshold == initialThreshold
          invariant forall a, k :: 0 <= a < i && 0 <= k < maximumInertia ==> states[a, k] == 0 && weights[a, k] == 0
          invariant forall k :: 0 <= k < j ==> states[i, k] == 0 && weights[i, k] == 0
        {
          states[i, j] := 0;
          weights[i, j] := 0;
          j := j + 1;
        }
        i := i + 1;
      }
    }
  }

  /**
   * What training does to the vote it was triggered by: under the same votes, the trained
   * weights of a location never move the weighted vote away from the outcome.
   */
  lemma TrainedVoteToward(weightsBefore: seq<int>, weightsAfter: seq<int>, votes: seq<bool>, taken: bool, counterMax: int)
    requires |weightsBefore| == |weightsAfter| == |votes|
    requires forall k :: 0 <= k < |votes| ==> weightsAfter[k] == Train(weightsBefore[k], votes[k] == taken, -counterMax - 1, counterMax)
    ensures Toward(taken, DotTo(weightsAfter, votes, |votes|)) >= Toward(taken, DotTo(weightsBefore, votes, |votes|))
  {
    TrainedOutputToward(weightsBefore, weightsAfter, votes, taken, -counterMax - 1, counterMax, |votes|);
  }
}
