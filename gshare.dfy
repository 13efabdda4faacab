/**
 * GShare: one global history register XOR-ed with the low address bits to index a
 * table of tagged saturating counters. The table has 2^max(historyLength, lowBits)
 * entries; the tag is the `8 - counterBits` address bits above the low ones.
 */
module GSharePredictor {
  import opened Bits
  import opened Branches
  import opened PatternTables

  const HISTORY_LENGTH_MINIMUM := 1
  const HISTORY_LENGTH_MAXIMUM := 24
  const LOW_BITS_MINIMUM := 1
  const LOW_BITS_MAXIMUM := 12
  const COUNTER_BITS_MINIMUM := 1
  const COUNTER_BITS_MAXIMUM := 5

  function Max(a: nat, b: nat): nat {
    if a > b then a else b
  }

  /**
   * `(history & historyMask) ^ (address & lowBranchAddressMask)`: below the table size
   * 2^max(historyLength, lowBits).
   */
  function ShareIndex(history: bv32, address: bv32, historyLength: nat, lowBits: nat): (i: nat)
    requires historyLength < 32 && lowBits < 32
    ensures i < Pow2(Max(historyLength, lowBits))
  {
    var n := Max(historyLength, lowBits);
    Pow2Monotone(historyLength, n);
    Pow2Monotone(lowBits, n);
    XorBelowPow2(Low(history, historyLength), Low(address, lowBits), n);
    Xor(Low(history, historyLength), Low(address, lowBits))
  }

  /** Under the same history, two branches share an entry exactly when their low address bits agree. */
  lemma ShareIndexSeparates(history: bv32, a1: bv32, a2: bv32, historyLength: nat, lowBits: nat)
    requires historyLength < 32 && lowBits < 32
    ensures ShareIndex(history, a1, historyLength, lowBits) == ShareIndex(history, a2, historyLength, lowBits) <==>
            Low(a1, lowBits) == Low(a2, lowBits)
  {
    var x := Low(history, historyLength);
    XorCommutes(x, Low(a1, lowBits));
    XorCommutes(x, Low(a2, lowBits));
    XorInverse(Low(a1, lowBits), x);
    XorInverse(Low(a2, lowBits), x);
  }

  class GShare {
    const historyLength: nat
    const branchAddressLowBits: nat
    const counterBits: nat
    const counterMax: int
    const patternHistoryTable: array<Entry>
    var history: bv32
    var patternHistoryTableIndex: nat
    var tag: bv8
    var prediction: bool

    /** The parameters lie in their property ranges, the table has 2^max(low, h) entries, counters stay in range. */
    ghost predicate Valid()
      reads this, patternHistoryTable
    {
      HISTORY_LENGTH_MINIMUM <= historyLength <= HISTORY_LENGTH_MAXIMUM &&
      LOW_BITS_MINIMUM <= branchAddressLowBits <= LOW_BITS_MAXIMUM &&
      COUNTER_BITS_MINIMUM <= counterBits <= COUNTER_BITS_MAXIMUM &&
      counterMax == Pow2(counterBits - 1) - 1 &&
      patternHistoryTable.Length == Pow2(Max(historyLength, branchAddressLowBits)) &&
      patternHistoryTableIndex < patternHistoryTable.Length &&
      forall i :: 0 <= i < patternHistoryTable.Length ==> TaggedInRange(patternHistoryTable[i].counter, counterMax)
    }

    constructor (historyLength: nat, branchAddressLowBits: nat, counterBits: nat)
      requires HISTORY_LENGTH_MINIMUM <= historyLength <= HISTORY_LENGTH_MAXIMUM
      requires LOW_BITS_MINIMUM <= branchAddressLowBits <= LOW_BITS_MAXIMUM
      requires COUNTER_BITS_MINIMUM <= counterBits <= COUNTER_BITS_MAXIMUM
      ensures Valid() && fresh(patternHistoryTable)
      ensures this.historyLength == historyLength && this.branchAddressLowBits == branchAddressLowBits
      ensures this.counterBits == counterBits
      ensures history == 0 && forall i :: 0 <= i < patternHistoryTable.Length ==> patternHistoryTable[i] == EMPTY
    {
      this.historyLength := historyLength;
      this.branchAddressLowBits := branchAddressLowBits;
      this.counterBits := counterBits;
      counterMax := Pow2(counterBits - 1) - 1;
      patternHistoryTable := new Entry[Pow2(Max(historyLength, branchAddressLowBits))](_ => EMPTY);
      history := 0;
      patternHistoryTableIndex := 0;
      tag := 0;
      prediction := false;
    }

    /** Selects the entry of this address XOR the history and predicts from it; taken on a tag miss. */
    method PredictBranch(info: BranchInfo) returns (p: bool)
      requires Valid()
      modifies this
      ensures Valid()
      ensures history == old(history)
      ensures patternHistoryTableIndex == ShareIndex(history, info.address, historyLength, branchAddressLowBits)
      ensures tag == Tag(info.address, branchAddressLowBits, counterBits)
      ensures p == prediction == Predict(patternHistoryTable[patternHistoryTableIndex], tag)
    {
      patternHistoryTableIndex := ShareIndex(history, info.address, historyLength, branchAddressLowBits);
      tag := Tag(info.address, branchAddressLowBits, counterBits);
      if patternHistoryTable[patternHistoryTableIndex].tag == tag {
        prediction := patternHistoryTable[patternHistoryTableIndex].counter >= 0;
      } else {
        prediction := true;
      }
      return prediction;
    }

    /** Trains the entry the last prediction selected, and shifts the outcome into the history. */
    method Update(branch: Branch)
      requires Valid()
      modifies this, patternHistoryTable
      ensures Valid()
      ensures patternHistoryTableIndex == old(patternHistoryTableIndex) && tag == old(tag)
      ensures patternHistoryTable[patternHistoryTableIndex] ==
              TaggedUpdate(old(patternHistoryTable[patternHistoryTableIndex]), tag, branch.taken, counterMax)
      ensures forall i :: 0 <= i < patternHistoryTable.Length && i != patternHistoryTableIndex ==>
                patternHistoryTable[i] == old(patternHistoryTable[i])
      ensures history == Shifted(old(history), branch.taken)
    {
      var index := patternHistoryTableIndex;
      var entry := patternHistoryTable[index];
      TaggedUpdateInRange(entry, tag, branch.taken, counterMax);
      if entry.tag == tag {
        if branch.taken {
          if entry.counter < counterMax {
            patternHistoryTable[index] := entry.(counter := entry.counter + 1);
          }
        } else {
          if entry.counter >= -counterMax {
            patternHistoryTable[index] := entry.(counter := entry.counter - 1);
          }
        }
      } else {
        patternHistoryTable[index] := entry.(tag := tag);
        if branch.taken {
          patternHistoryTable[index] := patternHistoryTable[index].(counter := 1);
        } else {
          patternHistoryTable[index] := patternHistoryTable[index].(counter := -1);
        }
      }
      history := Shifted(history, branch.taken);
    }

    /** Clears the history and every tag and counter. */
    method Reset()
      requires Valid()
      modifies this, patternHistoryTable
      ensures Valid()
      ensures history == 0
      ensures forall i :: 0 <= i < patternHistoryTable.Length ==> patternHistoryTable[i] == EMPTY
    {
      history := 0;
      var i := 0;
      while i < patternHistoryTable.Length
        invariant 0 <= i <= patternHistoryTable.Length
        invariant Valid() && history == 0
        invariant forall j :: 0 <= j < i ==> patternHistoryTable[j] == EMPTY
      {
        patternHistoryTable[i] := EMPTY;
        i := i + 1;
      }
    }
  }
}
