/**
 * LGShare: a global history register and a table of per-address local histories.
 * The global history bits placed above the local history bits of the branch are
 * XOR-ed with the low `local + global` address bits to index a table of tagged
 * saturating counters; the tag is the next `8 - counterBits` address bits.
 */
module LGSharePredictor {
  import opened Bits
  import opened Branches
  import opened PatternTables

  const LOCAL_HISTORY_LENGTH_MINIMUM := 1
  const LOCAL_HISTORY_LENGTH_MAXIMUM := 12
  const GLOBAL_HISTORY_LENGTH_MINIMUM := 1
  const GLOBAL_HISTORY_LENGTH_MAXIMUM := 16
  const COUNTER_BITS_MINIMUM := 1
  const COUNTER_BITS_MAXIMUM := 5

  /** `address & lowBranchAddressMask`: which local history the branch uses. */
  function LocalIndex(address: bv32, localLength: nat, globalLength: nat): (i: nat)
    requires localLength + globalLength < 32
    ensures i < Pow2(localLength + globalLength)
  {
    Low(address, localLength + globalLength)
  }

  /**
   * `((history & globalHistoryMask) << localLength) + (localHistory & localHistoryMask)`:
   * the global bits above the local bits, without overflow. The `short` local history
   * is widened by sign extension in C#, which the mask of at most 12 bits discards.
   */
  function HistoryPattern(history: bv32, localHistory: bv16, localLength: nat, globalLength: nat): (p: nat)
    requires localLength < 32 && globalLength < 32
    ensures p < Pow2(globalLength + localLength)
  {
    var x := Low(history, globalLength);
    var y := Low(localHistory as bv32, localLength);
    ConcatBelow(x, y, globalLength, localLength);
    x * Pow2(localLength) + y
  }

  /** The history pattern XOR-ed with the local index: below the table size 2^(local+global). */
  function TableIndex(history: bv32, localHistory: bv16, address: bv32, localLength: nat, globalLength: nat): (i: nat)
    requires localLength + globalLength < 32
    ensures i < Pow2(localLength + globalLength)
  {
    var p := HistoryPattern(history, localHistory, localLength, globalLength);
    var li := LocalIndex(address, localLength, globalLength);
    XorBelowPow2(p, li, localLength + globalLength);
    Xor(p, li)
  }

  /**
   * For one branch address, two states select the same entry exactly when their low
   * global history bits and their low local history bits agree.
   */
  lemma TableIndexSeparates(h1: bv32, l1: bv16, h2: bv32, l2: bv16, address: bv32, localLength: nat, globalLength: nat)
    requires localLength + globalLength < 32
    ensures TableIndex(h1, l1, address, localLength, globalLength) == TableIndex(h2, l2, address, localLength, globalLength) <==>
            Low(h1, globalLength) == Low(h2, globalLength) && Low(l1 as bv32, localLength) == Low(l2 as bv32, localLength)
  {
    var li := LocalIndex(address, localLength, globalLength);
    XorInverse(HistoryPattern(h1, l1, localLength, globalLength), li);
    XorInverse(HistoryPattern(h2, l2, localLength, globalLength), li);
    ConcatInjective(Low(h1, globalLength), Low(l1 as bv32, localLength),
                    Low(h2, globalLength), Low(l2 as bv32, localLength), Pow2(localLength));
  }

  class LGShare {
    const localHistoryLength: nat
    const globalHistoryLength: nat
    const counterBits: nat
    const counterMax: int
    const patternHistoryTable: array<Entry>
    /** The `short` local histories, one per value of the low address bits. */
    const localHistory: array<bv16>
    var history: bv32
    var localHistoryIndex: nat
    var patternHistoryTableIndex: nat
    var tag: bv8
    var prediction: bool

    /** The parameters lie in their property ranges, both tables have 2^(local+global) entries, counters stay in range. */
    ghost predicate Valid()
      reads this, patternHistoryTable
    {
      LOCAL_HISTORY_LENGTH_MINIMUM <= localHistoryLength <= LOCAL_HISTORY_LENGTH_MAXIMUM &&
      GLOBAL_HISTORY_LENGTH_MINIMUM <= globalHistoryLength <= GLOBAL_HISTORY_LENGTH_MAXIMUM &&
      COUNTER_BITS_MINIMUM <= counterBits <= COUNTER_BITS_MAXIMUM &&
      counterMax == Pow2(counterBits) - 1 &&
      patternHistoryTable.Length == Pow2(localHistoryLength + globalHistoryLength) &&
      localHistory.Length == Pow2(localHistoryLength + globalHistoryLength) &&
      patternHistoryTable as object != localHistory as object &&
      patternHistoryTableIndex < patternHistoryTable.Length &&
      localHistoryIndex < localHistory.Length &&
      forall i :: 0 <= i < patternHistoryTable.Length ==> TaggedInRange(patternHistoryTable[i].counter, counterMax)
    }

    constructor (localHistoryLength: nat, globalHistoryLength: nat, counterBits: nat)
      requires LOCAL_HISTORY_LENGTH_MINIMUM <= localHistoryLength <= LOCAL_HISTORY_LENGTH_MAXIMUM
      requires GLOBAL_HISTORY_LENGTH_MINIMUM <= globalHistoryLength <= GLOBAL_HISTORY_LENGTH_MAXIMUM
      requires COUNTER_BITS_MINIMUM <= counterBits <= COUNTER_BITS_MAXIMUM
      ensures Valid() && fresh(patternHistoryTable) && fresh(localHistory)
      ensures this.localHistoryLength == localHistoryLength && this.globalHistoryLength == globalHistoryLength
      ensures this.counterBits == counterBits
      ensures history == 0
      ensures forall i :: 0 <= i < patternHistoryTable.Length ==> patternHistoryTable[i] == EMPTY
      ensures forall i :: 0 <= i < localHistory.Length ==> localHistory[i] == 0
    {
      this.localHistoryLength := localHistoryLength;
      this.globalHistoryLength := globalHistoryLength;
      this.counterBits := counterBits;
      counterMax := Pow2(counterBits) - 1;
      patternHistoryTable := new Entry[Pow2(localHistoryLength + globalHistoryLength)](_ => EMPTY);
      localHistory := new bv16[Pow2(localHistoryLength + globalHistoryLength)](_ => 0);
      history := 0;
      localHistoryIndex := 0;
      patternHistoryTableIndex := 0;
      tag := 0;
      prediction := false;
    }

    /** Selects the branch's local history, then the entry of both histories XOR its address, and predicts from it. */
    method PredictBranch(info: BranchInfo) returns (p: bool)
      requires Valid()
      modifies this
      ensures Valid()
      ensures history == old(history)
      ensures localHistoryIndex == LocalIndex(info.address, localHistoryLength, globalHistoryLength)
      ensures patternHistoryTableIndex ==
              TableIndex(history, localHistory[localHistoryIndex], info.address, localHistoryLength, globalHistoryLength)
      ensures tag == Tag(info.address, localHistoryLength + globalHistoryLength, counterBits)
      ensures p == prediction == Predict(patternHistoryTable[patternHistoryTableIndex], tag)
    {
      localHistoryIndex := LocalIndex(info.address, localHistoryLength, globalHistoryLength);
      patternHistoryTableIndex :=
        TableIndex(history, localHistory[localHistoryIndex], info.address, localHistoryLength, globalHistoryLength);
      tag := Tag(info.address, localHistoryLength + globalHistoryLength, counterBits);
      if patternHistoryTable[patternHistoryTableIndex].tag == tag {
        prediction := patternHistoryTable[patternHistoryTableIndex].counter >= 0;
      } else {
        prediction := true;
      }
      return prediction;
    }

    /**
     * Trains the entry the last prediction selected, and shifts the outcome into the
     * global history and into the local history of that branch.
     */
    method Update(branch: Branch)
      requires Valid()
      modifies this, patternHistoryTable, localHistory
      ensures Valid()
      ensures patternHistoryTableIndex == old(patternHistoryTableIndex) && tag == old(tag)
      ensures localHistoryIndex == old(localHistoryIndex)
      ensures patternHistoryTable[patternHistoryTableIndex] ==
              TaggedUpdate(old(patternHistoryTable[patternHistoryTableIndex]), tag, branch.taken, counterMax)
      ensures forall i :: 0 <= i < patternHistoryTable.Length && i != patternHistoryTableIndex ==>
                patternHistoryTable[i] == old(patternHistoryTable[i])
      ensures history == Shifted(old(history), branch.taken)
      ensures localHistory[localHistoryIndex] == ShiftedShort(old(localHistory[localHistoryIndex]), branch.taken)
      ensures forall i :: 0 <= i < localHistory.Length && i != localHistoryIndex ==>
                localHistory[i] == old(localHistory[i])
    {
      var index := patternHistoryTableIndex;
      var entry := patternHistoryTable[index];
      TaggedUpdateInRange(entry, tag, branch.taken, counterMax);
      if entry.tag == tag {
        if branch.taken {
          if entry.counter < counterMax {
            patternHistoryTable[index] := entry.(counter := entry.counter + 1);
          }
        } else {
          if entry.counter >= -counterMax {
            patternHistoryTable[index] := entry.(counter := entry.counter - 1);
          }
        }
      } else {
        patternHistoryTable[index] := entry.(tag := tag);
        if branch.taken {
          patternHistoryTable[index] := patternHistoryTable[index].(counter := 1);
        } else {
          patternHistoryTable[index] := patternHistoryTable[index].(counter := -1);
        }
      }
      history := Shifted(history, branch.taken);
      localHistory[localHistoryIndex] := ShiftedShort(localHistory[localHistoryIndex], branch.taken);
    }

    /** Clears the global history, every local history and every tag and counter. */
    method Reset()
      requires Valid()
      modifies this, patternHistoryTable, localHistory
      ensures Valid()
      ensures history == 0
      ensures forall i :: 0 <= i < patternHistoryTable.Length ==> patternHistoryTable[i] == EMPTY
      ensures forall i :: 0 <= i < localHistory.Length ==> localHistory[i] == 0
    {
      history := 0;
      var i := 0;
      while i < patternHistoryTable.Length
        invariant 0 <= i <= patternHistoryTable.Length
        invariant Valid() && history == 0
        invariant forall j :: 0 <= j < i ==> patternHistoryTable[j] == EMPTY
        invariant forall j :: 0 <= j < i ==> localHistory[j] == 0
      {
        patternHistoryTable[i] := EMPTY;
        localHistory[i] := 0;
        i := i + 1;
      }
    }
  }
}
