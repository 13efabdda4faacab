/**
 * SIP2: the inertial predictor of SIP1 with one state per branch location, the
 * location being the branch address modulo the number of locations.
 */
module SIP2Predictor {
  import opened Locations
  import opened Branches
  import opened SIP1Predictor

  const BRANCH_LOCATIONS_MINIMUM := 1
  const BRANCH_LOCATIONS_MAXIMUM := 1048576

  class SIP2 {
    const numberOfBranchLocations: nat
    const inertia: int
    const states: array<int>
    var branchIndex: nat

    /** Every location's state stays in `[-inertia, inertia - 1]`. */
    ghost predicate Valid()
      reads this, states
    {
      BRANCH_LOCATIONS_MINIMUM <= numberOfBranchLocations <= BRANCH_LOCATIONS_MAXIMUM &&
      INERTIA_MINIMUM <= inertia <= INERTIA_MAXIMUM &&
      states.Length == numberOfBranchLocations &&
      branchIndex < numberOfBranchLocations &&
      forall i :: 0 <= i < states.Length ==> InertiaRange(states[i], inertia)
    }

    constructor (branchLocations: nat, inertia: int)
      requires BRANCH_LOCATIONS_MINIMUM <= branchLocations <= BRANCH_LOCATIONS_MAXIMUM
      requires INERTIA_MINIMUM <= inertia <= INERTIA_MAXIMUM
      ensures Valid() && fresh(states)
      ensures numberOfBranchLocations == branchLocations && this.inertia == inertia
      ensures forall i :: 0 <= i < states.Length ==> states[i] == 0
    {
      numberOfBranchLocations := branchLocations;
      this.inertia := inertia;
      states := new int[branchLocations](_ => 0);
      branchIndex := 0;
    }

    /** Selects the branch's location and predicts taken while its state is non-negative. */
    method PredictBranch(info: BranchInfo) returns (p: bool)
      requires Valid()
      modifies this
      ensures Valid()
      ensures branchIndex == BranchIndex(info.address as int, numberOfBranchLocations)
      ensures p <==> states[branchIndex] >= 0
    {
      branchIndex := BranchIndex(info.address as int, numberOfBranchLocations);
      if states[branchIndex] >= 0 {
        return true;
      }
      return false;
    }

    /** Steps the state of the location the last prediction selected; the others keep theirs. */
    method Update(branch: Branch)
      requires Valid()
      modifies states
      ensures Valid()
      ensures states[branchIndex] == InertiaStep(old(states[branchIndex]), branch.taken, inertia)
      ensures forall i :: 0 <= i < states.Length && i != branchIndex ==> states[i] == old(states[i])
    {
      InertiaStepInRange(states[branchIndex], branch.taken, inertia);
      if branch.taken {
        if states[branchIndex] < inertia - 1 {
          states[branchIndex] := states[branchIndex] + 1;
        }
      } else {
        if states[branchIndex] > -inertia {
          states[branchIndex] := states[branchIndex] - 1;
        }
      }
    }

    method Reset()
      requires Valid()
      modifies states
      ensures Valid()
      ensures forall i :: 0 <= i < states.Length ==> states[i] == 0
    {
      var i := 0;
      while i < numberOfBranchLocations
        invariant 0 <= i <= numberOfBranchLocations
        invariant Valid()
        invariant forall j :: 0 <= j < i ==> states[j] == 0
      {
        states[i] := 0;
        i := i + 1;
      }
    }
  }
}
