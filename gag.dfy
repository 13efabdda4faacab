/**
 * GAg: one global history register and one table of tagged saturating counters,
 * indexed by the low address bits placed above the low history bits. The tag is the
 * next `8 - counterBits` address bits.
 */
module GAgPredictor {
  import opened Bits
  import opened Branches
  import opened PatternTables

  const HISTORY_LENGTH_MINIMUM := 1
  const HISTORY_LENGTH_MAXIMUM := 17
  const LOW_BITS_MINIMUM := 1
  const LOW_BITS_MAXIMUM := 12
  const COUNTER_BITS_MINIMUM := 1
  const COUNTER_BITS_MAXIMUM := 5

  /**
   * `((address & lowMask) << historyLength) + (history & historyMask)`: the shift of a
   * value below 2^12 by at most 17 places does not overflow, so it is a product.
   */
  function TableIndex(address: bv32, history: bv32, lowBits: nat, historyLength: nat): (i: nat)
    requires lowBits < 32 && historyLength < 32
    ensures i < Pow2(lowBits + historyLength)
  {
    var x := Low(address, lowBits);
    var y := Low(history, historyLength);
    ConcatBelow(x, y, lowBits, historyLength);
    x * Pow2(historyLength) + y
  }

  /** Two branches share a table entry exactly when their low address bits and low history bits agree. */
  lemma TableIndexSeparates(a1: bv32, h1: bv32, a2: bv32, h2: bv32, lowBits: nat, historyLength: nat)
    requires lowBits < 32 && historyLength < 32
    ensures TableIndex(a1, h1, lowBits, historyLength) == TableIndex(a2, h2, lowBits, historyLength) <==>
            Low(a1, lowBits) == Low(a2, lowBits) && Low(h1, historyLength) == Low(h2, historyLength)
  {
    ConcatInjective(Low(a1, lowBits), Low(h1, historyLength), Low(a2, lowBits), Low(h2, historyLength),
                    Pow2(historyLength));
  }

  class GAg {
    const historyLength: nat
    const branchAddressLowBits: nat
    const counterBits: nat
    const counterMax: int
    const patternHistoryTable: array<Entry>
    var history: bv32
    var patternHistoryTableIndex: nat
    var tag: bv8
    var prediction: bool

    /** The parameters lie in their property ranges, the table has 2^(low+h) entries, counters stay in range. */
    ghost predicate Valid()
      reads this, patternHistoryTable
    {
      HISTORY_LENGTH_MINIMUM <= historyLength <= HISTORY_LENGTH_MAXIMUM &&
      LOW_BITS_MINIMUM <= branchAddressLowBits <= LOW_BITS_MAXIMUM &&
      COUNTER_BITS_MINIMUM <= counterBits <= COUNTER_BITS_MAXIMUM &&
      counterMax == Pow2(counterBits - 1) - 1 &&
      patternHistoryTable.Length == Pow2(branchAddressLowBits + historyLength) &&
      patternHistoryTableIndex < patternHistoryTable.Length &&
      forall i :: 0 <= i < patternHistoryTable.Length ==> TaggedInRange(patternHistoryTable[i].counter, counterMax)
    }

    constructor (historyLength: nat, branchAddressLowBits: nat, counterBits: nat)
      requires HISTORY_LENGTH_MINIMUM <= historyLength <= HISTORY_LENGTH_MAXIMUM
      requires LOW_BITS_MINIMUM <= branchAddressLowBits <= LOW_BITS_MAXIMUM
      requires COUNTER_BITS_MINIMUM <= counterBits <= COUNTER_BITS_MAXIMUM
      ensures Valid() && fresh(patternHistoryTable)
      ensures this.historyLength == historyLength && this.branchAddressLowBits == branchAddressLowBits
      ensures this.counterBits == counterBits
      ensures history == 0 && forall i :: 0 <= i < patternHistoryTable.Length ==> patternHistoryTable[i] == EMPTY
    {
      this.historyLength := historyLength;
      this.branchAddressLowBits := branchAddressLowBits;
      this.counterBits := counterBits;
      counterMax := Pow2(counterBits - 1) - 1;
      patternHistoryTable := new Entry[Pow2(branchAddressLowBits + historyLength)](_ => EMPTY);
      history := 0;
      patternHistoryTableIndex := 0;
      tag := 0;
      prediction := false;
    }

    /** Selects the entry of this address and history and predicts from it; taken on a tag miss. */
    method PredictBranch(info: BranchInfo) returns (p: bool)
      requires Valid()
      modifies this
      ensures Valid()
      ensures history == old(history)
      ensures patternHistoryTableIndex == TableIndex(info.address, history, branchAddressLowBits, historyLength)
      ensures tag == Tag(info.address, branchAddressLowBits, counterBits)
      ensures p == prediction == Predict(patternHistoryTable[patternHistoryTableIndex], tag)
    {
      patternHistoryTableIndex := TableIndex(info.address, history, branchAddressLowBits, historyLength);
      tag := Tag(info.address, branchAddressLowBits, counterBits);
      if patternHistoryTable[patternHistoryTableIndex].tag == tag {
        prediction := patternHistoryTable[patternHistoryTableIndex].counter >= 0;
      } else {
        prediction := true;
      }
      return prediction;
    }

    /** Trains the entry the last prediction selected, and shifts the outcome into the history. */
    method Update(branch: Branch)
      requires Valid()
      modifies this, patternHistoryTable
      ensures Valid()
      ensures patternHistoryTableIndex == old(patternHistoryTableIndex) && tag == old(tag)
      ensures patternHistoryTable[patternHistoryTableIndex] ==
              TaggedUpdate(old(patternHistoryTable[patternHistoryTableIndex]), tag, branch.taken, counterMax)
      ensures forall i :: 0 <= i < patternHistoryTable.Length && i != patternHistoryTableIndex ==>
                patternHistoryTable[i] == old(patternHistoryTable[i])
      ensures history == Shifted(old(history), branch.taken)
    {
      var index := patternHistoryTableIndex;
      var entry := patternHistoryTable[index];
      TaggedUpdateInRange(entry, tag, branch.taken, counterMax);
      if entry.tag == tag {
        if branch.taken {
          if entry.counter < counterMax {
            patternHistoryTable[index] := entry.(counter := entry.counter + 1);
          }
        } else {
          if entry.counter >= -counterMax {
            patternHistoryTable[index] := entry.(counter := entry.counter - 1);
          }
        }
      } else {
        patternHistoryTable[index] := entry.(tag := tag);
        if branch.taken {
          patternHistoryTable[index] := patternHistoryTable[index].(counter := 1);
        } else {
          patternHistoryTable[index] := patternHistoryTable[index].(counter := -1);
        }
      }
      history := Shifted(history, branch.taken);
    }

    /** Clears the history and every tag and counter. */
    method Reset()
      requires Valid()
      modifies this, patternHistoryTable
      ensures Valid()
      ensures history == 0
      ensures forall i :: 0 <= i < patternHistoryTable.Length ==> patternHistoryTable[i] == EMPTY
    {
      history := 0;
      var i := 0;
      while i < patternHistoryTable.Length
        invariant 0 <= i <= patternHistoryTable.Length
        invariant Valid() && history == 0
        invariant forall j :: 0 <= j < i ==> patternHistoryTable[j] == EMPTY
      {
        patternHistoryTable[i] := EMPTY;
        i := i + 1;
      }
    }
  }
}
