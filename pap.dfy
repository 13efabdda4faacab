/**
 * PAp: one history register per value of the low address bits, and for each of them
 * its own table of untagged saturating counters indexed by the low bits of that
 * history. The per-address tables are the rows of one two-dimensional array.
 */
module PApPredictor {
  import opened Bits
  import opened Branches
  import opened PatternTables

  const HISTORY_LENGTH_MINIMUM := 1
  const HISTORY_LENGTH_MAXIMUM := 16
  const LOW_BITS_MINIMUM := 1
  const LOW_BITS_MAXIMUM := 12
  const COUNTER_BITS_MINIMUM := 1
  const COUNTER_BITS_MAXIMUM := 5

  /** `history & historyMask` on a `ushort` history: which counter of the entry it selects. */
  function PatternIndex(history: bv16, historyLength: nat): (i: nat)
    requires historyLength < 32
    ensures i < Pow2(historyLength)
  {
    Low(history as bv32, historyLength)
  }

  class PAp {
    const historyLength: nat
    const branchAddressLowBits: nat
    const counterBits: nat
    const counterMax: int
    /** The `ushort` history of each entry. */
    const histories: array<bv16>
    /** Row `i` holds the `sbyte` counters of entry `i`, one per history pattern. */
    const counters: array2<int>
    var localPatternHistoryTableIndex: nat
    var globalPatternHistoryTableIndex: nat
    var prediction: bool

    /** The parameters lie in their property ranges, 2^low entries of 2^h counters each, counters stay in range. */
    ghost predicate Valid()
      reads this, counters
    {
      HISTORY_LENGTH_MINIMUM <= historyLength <= HISTORY_LENGTH_MAXIMUM &&
      LOW_BITS_MINIMUM <= branchAddressLowBits <= LOW_BITS_MAXIMUM &&
      COUNTER_BITS_MINIMUM <= counterBits <= COUNTER_BITS_MAXIMUM &&
      counterMax == Pow2(counterBits - 1) - 1 &&
      histories.Length == Pow2(branchAddressLowBits) &&
      counters.Length0 == Pow2(branchAddressLowBits) &&
      counters.Length1 == Pow2(historyLength) &&
      localPatternHistoryTableIndex < counters.Length0 &&
      globalPatternHistoryTableIndex < counters.Length1 &&
      forall i, j :: 0 <= i < counters.Length0 && 0 <= j < counters.Length1 ==> InRange(counters[i, j], counterMax)
    }

    constructor (historyLength: nat, branchAddressLowBits: nat, counterBits: nat)
      requires HISTORY_LENGTH_MINIMUM <= historyLength <= HISTORY_LENGTH_MAXIMUM
      requires LOW_BITS_MINIMUM <= branchAddressLowBits <= LOW_BITS_MAXIMUM
      requires COUNTER_BITS_MINIMUM <= counterBits <= COUNTER_BITS_MAXIMUM
      ensures Valid() && fresh(histories) && fresh(counters)
      ensures this.historyLength == historyLength && this.branchAddressLowBits == branchAddressLowBits
      ensures this.counterBits == counterBits
      ensures forall i :: 0 <= i < histories.Length ==> histories[i] == 0
      ensures forall i, j :: 0 <= i < counters.Length0 && 0 <= j < counters.Length1 ==> counters[i, j] == 0
    {
      this.historyLength := historyLength;
      this.branchAddressLowBits := branchAddressLowBits;
      this.counterBits := counterBits;
      histories := new bv16[Pow2(branchAddressLowBits)](_ => 0);
      counters := new int[Pow2(branchAddressLowBits), Pow2(historyLength)]((_, _) => 0);
      counterMax := Pow2(counterBits - 1) - 1;
      localPatternHistoryTableIndex := 0;
      globalPatternHistoryTableIndex := 0;
      prediction := false;
    }

    /** Selects the branch's entry by its low address bits, then the entry's counter for its history; taken when non-negative. */
    method PredictBranch(info: BranchInfo) returns (p: bool)
      requires Valid()
      modifies this
      ensures Valid()
      ensures localPatternHistoryTableIndex == Low(info.address, branchAddressLowBits)
      ensures globalPatternHistoryTableIndex == PatternIndex(histories[localPatternHistoryTableIndex], historyLength)
      ensures p == prediction == (counters[localPatternHistoryTableIndex, globalPatternHistoryTableIndex] >= 0)
    {
      localPatternHistoryTableIndex := Low(info.address, branchAddressLowBits);
      globalPatternHistoryTableIndex := PatternIndex(histories[localPatternHistoryTableIndex], historyLength);
      prediction := counters[localPatternHistoryTableIndex, globalPatternHistoryTableIndex] >= 0;
      return prediction;
    }

    /** Steps the counter the last prediction read, and shifts the outcome into that entry's history. */
    method Update(branch: Branch)
      requires Valid()
      modifies this, histories, counters
      ensures Valid()
      ensures localPatternHistoryTableIndex == old(localPatternHistoryTableIndex)
      ensures globalPatternHistoryTableIndex == old(globalPatternHistoryTableIndex)
      ensures counters[localPatternHistoryTableIndex, globalPatternHistoryTableIndex] ==
              Step(old(counters[localPatternHistoryTableIndex, globalPatternHistoryTableIndex]), branch.taken, counterMax)
      ensures forall i, j ::
                0 <= i < counters.Length0 && 0 <= j < counters.Length1 &&
                (i != localPatternHistoryTableIndex || j != globalPatternHistoryTableIndex) ==>
                counters[i, j] == old(counters[i, j])
      ensures histories[localPatternHistoryTableIndex] ==
              ShiftedShort(old(histories[localPatternHistoryTableIndex]), branch.taken)
      ensures forall i :: 0 <= i < histories.Length && i != localPatternHistoryTableIndex ==>
                histories[i] == old(histories[i])
    {
      var l := localPatternHistoryTableIndex;
      var g := globalPatternHistoryTableIndex;
      StepInRange(counters[l, g], branch.taken, counterMax, counterMax);
      if branch.taken {
        if counters[l, g] < counterMax {
          counters[l, g] := counters[l, g] + 1;
        }
      } else {
        if counters[l, g] >= -counterMax {
          counters[l, g] := counters[l, g] - 1;
        }
      }
      histories[l] := ShiftedShort(histories[l], branch.taken);
    }

    /** Clears the history and every counter of each entry in turn. */
    method Reset()
      requires Valid()
      modifies this, histories, counters
      ensures Valid()
      ensures forall i :: 0 <= i < histories.Length ==> histories[i] == 0
      ensures forall i, j :: 0 <= i < counters.Length0 && 0 <= j < counters.Length1 ==> counters[i, j] == 0
    {
      var i := 0;
      while i < histories.Length
        invariant 0 <= i <= histories.Length
        invariant Valid()
        invariant forall k :: 0 <= k < i ==> histories[k] == 0
        invariant forall k, j :: 0 <= k < i && 0 <= j < counters.Length1 ==> counters[k, j] == 0
      {
        histories[i] := 0;
        var j := 0;
        while j < counters.Length1
          invariant 0 <= j <= counters.Length1
          invariant Valid()
          invariant forall k :: 0 <= k <= i ==> histories[k] == 0
          invariant forall k, m :: 0 <= k < i && 0 <= m < counters.Length1 ==> counters[k, m] == 0
          invariant forall m :: 0 <= m < j ==> counters[i, m] == 0
        {
          counters[i, j] := 0;
          j := j + 1;
        }
        i := i + 1;
      }
    }
  }
}
