/**
 * The fixed predictor: always the same prediction, chosen at construction by its one
 * boolean property ("Always predict: Taken / Not Taken", default Taken).
 */
module FixedPrediction {
  import opened Branches

  const PREDICT_TAKEN_DEFAULT := true

  class FixedPredictor {
    const predictTaken: bool

    constructor (predictTaken: bool)
      ensures this.predictTaken == predictTaken
    {
      this.predictTaken := predictTaken;
    }

    /** The constructor's choice, whatever the branch. */
    method PredictBranch(info: BranchInfo) returns (p: bool)
      ensures p == predictTaken
    {
      return predictTaken;
    }

    /** Learns nothing. */
    method Update(branch: Branch)
      ensures unchanged(this)
    {
    }

    /** Has nothing to clear. */
    method Reset()
      ensures unchanged(this)
    {
    }
  }

  /** Two predictions by the same predictor agree, whatever the branches. */
  method PredictsAlike(predictor: FixedPredictor, a: BranchInfo, b: BranchInfo, outcome: Branch)
    returns (first: bool, second: bool)
    ensures first == second == predictor.predictTaken
  {
    first := predictor.PredictBranch(a);
    predictor.Update(outcome);
    predictor.Reset();
    second := predictor.PredictBranch(b);
  }
}
