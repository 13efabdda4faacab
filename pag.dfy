/**
 * PAg: one history register per value of the low address bits, and one shared table
 * of untagged saturating counters indexed by the low bits of the branch's history.
 */
module PAgPredictor {
  import opened Bits
  import opened Branches
  import opened PatternTables

  const HISTORY_LENGTH_MINIMUM := 1
  const HISTORY_LENGTH_MAXIMUM := 28
  const LOW_BITS_MINIMUM := 1
  const LOW_BITS_MAXIMUM := 12
  const COUNTER_BITS_MINIMUM := 1
  const COUNTER_BITS_MAXIMUM := 5

  class PAg {
    const historyLength: nat
    const branchAddressLowBits: nat
    const counterBits: nat
    const counterMax: int
    /** The `int` history registers, one per value of the low address bits. */
    const localPatternHistoryTable: array<bv32>
    /** The `sbyte` counters, one per history pattern. */
    const globalPatternHistoryTable: array<int>
    var localPatternHistoryTableIndex: nat
    var globalPatternHistoryTableIndex: nat
    var prediction: bool

    /** The parameters lie in their property ranges, the tables have 2^low and 2^h entries, counters stay in range. */
    ghost predicate Valid()
      reads this, globalPatternHistoryTable
    {
      HISTORY_LENGTH_MINIMUM <= historyLength <= HISTORY_LENGTH_MAXIMUM &&
      LOW_BITS_MINIMUM <= branchAddressLowBits <= LOW_BITS_MAXIMUM &&
      COUNTER_BITS_MINIMUM <= counterBits <= COUNTER_BITS_MAXIMUM &&
      counterMax == Pow2(counterBits - 1) - 1 &&
      localPatternHistoryTable.Length == Pow2(branchAddressLowBits) &&
      globalPatternHistoryTable.Length == Pow2(historyLength) &&
      localPatternHistoryTable as object != globalPatternHistoryTable as object &&
      localPatternHistoryTableIndex < localPatternHistoryTable.Length &&
      globalPatternHistoryTableIndex < globalPatternHistoryTable.Length &&
      forall i :: 0 <= i < globalPatternHistoryTable.Length ==> InRange(globalPatternHistoryTable[i], counterMax)
    }

    constructor (historyLength: nat, branchAddressLowBits: nat, counterBits: nat)
      requires HISTORY_LENGTH_MINIMUM <= historyLength <= HISTORY_LENGTH_MAXIMUM
      requires LOW_BITS_MINIMUM <= branchAddressLowBits <= LOW_BITS_MAXIMUM
      requires COUNTER_BITS_MINIMUM <= counterBits <= COUNTER_BITS_MAXIMUM
      ensures Valid() && fresh(localPatternHistoryTable) && fresh(globalPatternHistoryTable)
      ensures this.historyLength == historyLength && this.branchAddressLowBits == branchAddressLowBits
      ensures this.counterBits == counterBits
      ensures forall i :: 0 <= i < localPatternHistoryTable.Length ==> localPatternHistoryTable[i] == 0
      ensures forall i :: 0 <= i < globalPatternHistoryTable.Length ==> globalPatternHistoryTable[i] == 0
    {
      this.historyLength := historyLength;
      this.branchAddressLowBits := branchAddressLowBits;
      this.counterBits := counterBits;
      localPatternHistoryTable := new bv32[Pow2(branchAddressLowBits)](_ => 0);
      globalPatternHistoryTable := new int[Pow2(historyLength)](_ => 0);
      counterMax := Pow2(counterBits - 1) - 1;
      localPatternHistoryTableIndex := 0;
      globalPatternHistoryTableIndex := 0;
      prediction := false;
    }

    /** Selects the branch's history by its low address bits, then the counter of that history; taken when non-negative. */
    method PredictBranch(info: BranchInfo) returns (p: bool)
      requires Valid()
      modifies this
      ensures Valid()
      ensures localPatternHistoryTableIndex == Low(info.address, branchAddressLowBits)
      ensures globalPatternHistoryTableIndex == Low(localPatternHistoryTable[localPatternHistoryTableIndex], historyLength)
      ensures p == prediction == (globalPatternHistoryTable[globalPatternHistoryTableIndex] >= 0)
    {
      var local := Low(info.address, branchAddressLowBits);
      var pattern := Low(localPatternHistoryTable[local], historyLength);
      localPatternHistoryTableIndex, globalPatternHistoryTableIndex := local, pattern;
      prediction := globalPatternHistoryTable[pattern] >= 0;
      return prediction;
    }

    /** Steps the counter the last prediction read, and shifts the outcome into that branch's history. */
    method Update(branch: Branch)
      requires Valid()
      modifies this, localPatternHistoryTable, globalPatternHistoryTable
      ensures Valid()
      ensures localPatternHistoryTableIndex == old(localPatternHistoryTableIndex)
      ensures globalPatternHistoryTableIndex == old(globalPatternHistoryTableIndex)
      ensures globalPatternHistoryTable[globalPatternHistoryTableIndex] ==
              Step(old(globalPatternHistoryTable[globalPatternHistoryTableIndex]), branch.taken, counterMax)
      ensures forall i :: 0 <= i < globalPatternHistoryTable.Length && i != globalPatternHistoryTableIndex ==>
                globalPatternHistoryTable[i] == old(globalPatternHistoryTable[i])
      ensures localPatternHistoryTable[localPatternHistoryTableIndex] ==
              Shifted(old(localPatternHistoryTable[localPatternHistoryTableIndex]), branch.taken)
      ensures forall i :: 0 <= i < localPatternHistoryTable.Length && i != localPatternHistoryTableIndex ==>
                localPatternHistoryTable[i] == old(localPatternHistoryTable[i])
    {
      var g := globalPatternHistoryTableIndex;
      StepInRange(globalPatternHistoryTable[g], branch.taken, counterMax, counterMax);
      if branch.taken {
        if globalPatternHistoryTable[g] < counterMax {
          globalPatternHistoryTable[g] := globalPatternHistoryTable[g] + 1;
        }
      } else {
        if globalPatternHistoryTable[g] >= -counterMax {
          globalPatternHistoryTable[g] := globalPatternHistoryTable[g] - 1;
        }
      }
      var l := localPatternHistoryTableIndex;
      localPatternHistoryTable[l] := Shifted(localPatternHistoryTable[l], branch.taken);
    }

    /** Clears every history register, then every counter. */
    method Reset()
      requires Valid()
      modifies this, localPatternHistoryTable, globalPatternHistoryTable
      ensures Valid()
      ensures forall i :: 0 <= i < localPatternHistoryTable.Length ==> localPatternHistoryTable[i] == 0
      ensures forall i :: 0 <= i < globalPatternHistoryTable.Length ==> globalPatternHistoryTable[i] == 0
    {
      var i := 0;
      while i < localPatternHistoryTable.Length
        invariant 0 <= i <= localPatternHistoryTable.Length
        invariant Valid()
        invariant forall j :: 0 <= j < i ==> localPatternHistoryTable[j] == 0
      {
        localPatternHistoryTable[i] := 0;
        i := i + 1;
      }
      i := 0;
      while i < globalPatternHistoryTable.Length
        invariant 0 <= i <= globalPatternHistoryTable.Length
        invariant Valid()
        invariant forall j :: 0 <= j < localPatternHistoryTable.Length ==> localPatternHistoryTable[j] == 0
        invariant forall j :: 0 <= j < i ==> globalPatternHistoryTable[j] == 0
      {
        globalPatternHistoryTable[i] := 0;
        i := i + 1;
      }
    }
  }
}
