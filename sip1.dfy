/**
 * SIP1, the simple inertial predictor: one state shared by every branch, counting
 * up on taken outcomes below `inertia - 1` and down on not-taken outcomes above
 * `-inertia`; it predicts taken while the state is non-negative.
 */
module SIP1Predictor {
  import opened Branches

  const INERTIA_MINIMUM := 1
  const INERTIA_MAXIMUM := 100

  /** One update of an inertial state: one step toward the outcome, unless already at that end. */
  function InertiaStep(state: int, taken: bool, inertia: int): (r: int)
    ensures taken ==> state <= r <= state + 1
    ensures !taken ==> state - 1 <= r <= state
    ensures r != state <==> (taken && state < inertia - 1) || (!taken && state > -inertia)
  {
    if taken then (if state < inertia - 1 then state + 1 else state)
    else (if state > -inertia then state - 1 else state)
  }

  /** The states an inertial counter can take. */
  predicate InertiaRange(state: int, inertia: int) {
    -inertia <= state <= inertia - 1
  }

  lemma InertiaStepInRange(state: int, taken: bool, inertia: int)
    requires InertiaRange(state, inertia)
    ensures InertiaRange(InertiaStep(state, taken, inertia), inertia)
  {
  }

  /** A correct prediction is never unlearned by the update that follows it. */
  lemma InertiaStepReinforces(state: int, taken: bool, inertia: int)
    requires (state >= 0) == taken
    ensures (InertiaStep(state, taken, inertia) >= 0) == taken
  {
  }

  /** The state after `k` updates with the same outcome. */
  function Repeated(state: int, taken: bool, inertia: int, k: nat): int {
    if k == 0 then state else InertiaStep(Repeated(state, taken, inertia, k - 1), taken, inertia)
  }

  /**
   * The inertia: from a state `s >= 0` inside the range, `s` not-taken outcomes in a row
   * still leave a taken prediction, and the next one flips it.
   */
  lemma {:induction false} NotTakenRun(state: int, inertia: int, k: nat)
    requires InertiaRange(state, inertia) && 0 <= state && k <= state + 1
    ensures Repeated(state, false, inertia, k) == state - k
    ensures (Repeated(state, false, inertia, k) >= 0) <==> k <= state
  {
    if k > 0 {
      NotTakenRun(state, inertia, k - 1);
    }
  }

  /** Symmetrically, from a state `s < 0`, it takes exactly `-s` taken outcomes to predict taken again. */
  lemma {:induction false} TakenRun(state: int, inertia: int, k: nat)
    requires InertiaRange(state, inertia) && state < 0 && k <= -state
    ensures Repeated(state, true, inertia, k) == state + k
    ensures (Repeated(state, true, inertia, k) >= 0) <==> k == -state
  {
    if k > 0 {
      TakenRun(state, inertia, k - 1);
    }
  }

  class SIP1 {
    const inertia: int
    var state: int

    ghost predicate Valid()
      reads this
    {
      INERTIA_MINIMUM <= inertia <= INERTIA_MAXIMUM && InertiaRange(state, inertia)
    }

    constructor (inertia: int)
      requires INERTIA_MINIMUM <= inertia <= INERTIA_MAXIMUM
      ensures Valid() && this.inertia == inertia && state == 0
    {
      this.inertia := inertia;
      state := 0;
    }

    /** Taken while the shared state is non-negative, whatever the branch. */
    method PredictBranch(info: BranchInfo) returns (p: bool)
      requires Valid()
      ensures p <==> state >= 0
    {
      if state >= 0 {
        return true;
      }
      return false;
    }

    /** Moves the state one step toward the outcome, within `[-inertia, inertia - 1]`. */
    method Update(branch: Branch)
      requires Valid()
      modifies this
      ensures Valid()
      ensures state == InertiaStep(old(state), branch.taken, inertia)
    {
      InertiaStepInRange(state, branch.taken, inertia);
      if branch.taken {
        if state < inertia - 1 {
          state := state + 1;
        }
      } else {
        if state > -inertia {
          state := state - 1;
        }
      }
    }

    method Reset()
      requires Valid()
      modifies this
      ensures Valid() && state == 0
    {
      state := 0;
    }
  }
}
