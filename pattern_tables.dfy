/**
 * What the two-level predictors (GAg, GShare, LGShare, PAg, PAp) have in common: a
 * table of saturating counters read as "taken" when non-negative, optionally tagged
 * with a few high address bits, and history registers that shift in each outcome.
 */
module PatternTables {
  import opened Bits

  /** A tagged pattern-table entry: a C# `byte` tag and an `sbyte` counter. */
  datatype Entry = Entry(tag: bv8, counter: int)

  const EMPTY := Entry(0, 0)

  /**
   * `(byte)((address & highMask) >> indexBits)` with `highMask = (1 << (indexBits + 8 -
   * counterBits)) - 1`: the `8 - counterBits` address bits just above the `indexBits`
   * used for the index (C# takes the mask's shift count modulo 32).
   */
  function Tag(address: bv32, indexBits: nat, counterBits: nat): bv8
    requires indexBits < 32
  {
    (((address & CsMask(indexBits + 8 - counterBits)) >> indexBits) & 0xFF) as bv8
  }

  /**
   * One update of a counter: up by one on taken while below `counterMax`, down by one
   * on not taken while not below `-counterMax`; so it saturates at `counterMax` and at
   * `-counterMax - 1`.
   */
  function Step(counter: int, taken: bool, counterMax: int): (r: int)
    ensures taken ==> counter <= r <= counter + 1
    ensures !taken ==> counter - 1 <= r <= counter
    ensures r != counter <==> (taken && counter < counterMax) || (!taken && counter >= -counterMax)
  {
    if taken then (if counter < counterMax then counter + 1 else counter)
    else (if counter >= -counterMax then counter - 1 else counter)
  }

  /** A counter never leaves `[-counterMax - 1, high]` once inside it, for any `high >= counterMax`. */
  lemma StepInRange(counter: int, taken: bool, counterMax: int, high: int)
    requires counterMax <= high
    requires -counterMax - 1 <= counter <= high
    ensures -counterMax - 1 <= Step(counter, taken, counterMax) <= high
  {
  }

  /** The counters of an untagged table stay in `[-counterMax - 1, counterMax]`. */
  predicate InRange(counter: int, counterMax: int) {
    -counterMax - 1 <= counter <= counterMax
  }

  /**
   * The counters of a tagged table: a tag miss sets them to +1 or -1, which lies above
   * `counterMax` when that is 0 (one counter bit).
   */
  predicate TaggedInRange(counter: int, counterMax: int) {
    -counterMax - 1 <= counter <= if counterMax < 1 then 1 else counterMax
  }

  /** A tagged entry predicts taken on a tag miss, and by its counter's sign on a hit. */
  predicate Predict(entry: Entry, tag: bv8) {
    entry.tag != tag || entry.counter >= 0
  }

  /**
   * The update of a tagged entry: a hit steps the counter, a miss takes the new tag
   * and restarts the counter at +1 or -1 according to the outcome.
   */
  function TaggedUpdate(entry: Entry, tag: bv8, taken: bool, counterMax: int): (r: Entry)
    ensures r.tag == tag
    ensures entry.tag == tag ==> r.counter == Step(entry.counter, taken, counterMax)
    ensures entry.tag != tag ==> r.counter == if taken then 1 else -1
  {
    if entry.tag == tag then Entry(tag, Step(entry.counter, taken, counterMax))
    else Entry(tag, if taken then 1 else -1)
  }

  /** Updating keeps a tagged counter in its range. */
  lemma TaggedUpdateInRange(entry: Entry, tag: bv8, taken: bool, counterMax: int)
    requires counterMax >= 0 && TaggedInRange(entry.counter, counterMax)
    ensures TaggedInRange(TaggedUpdate(entry, tag, taken, counterMax).counter, counterMax)
  {
    if entry.tag == tag {
      StepInRange(entry.counter, taken, counterMax, if counterMax < 1 then 1 else counterMax);
    }
  }

  /** A correct prediction is never unlearned by the update that follows it. */
  lemma TaggedUpdateReinforces(entry: Entry, tag: bv8, taken: bool, counterMax: int)
    requires Predict(entry, tag) == taken
    ensures Predict(TaggedUpdate(entry, tag, taken, counterMax), tag) == taken
  {
  }

  /** After a tag miss the entry predicts the outcome that replaced it. */
  lemma TaggedMissLearns(entry: Entry, tag: bv8, taken: bool, counterMax: int)
    requires entry.tag != tag
    ensures Predict(TaggedUpdate(entry, tag, taken, counterMax), tag) == taken
  {
  }

  /** An untagged counter that predicted correctly keeps predicting the same. */
  lemma StepReinforces(counter: int, taken: bool, counterMax: int)
    requires (counter >= 0) == taken
    ensures (Step(counter, taken, counterMax) >= 0) == taken
  {
  }

  // ---------------------------------------------------------------------------
  // History registers.

  /** `history <<= 1; if (taken) history++;` on an `int`: the top bit is lost. */
  function Shifted(history: bv32, taken: bool): bv32 {
    if taken then (history << 1) + 1 else history << 1
  }

  /** The newest outcome is bit 0 and the older ones move up by one place. */
  lemma ShiftedHistory(history: bv32, taken: bool)
    ensures (Shifted(history, taken) & 1 == 1) == taken
    ensures Shifted(history, taken) >> 1 == history & 0x7FFF_FFFF
  {
  }

  /** The same on a 16-bit `short` or `ushort` register. */
  function ShiftedShort(history: bv16, taken: bool): bv16 {
    if taken then (history << 1) + 1 else history << 1
  }

  lemma ShiftedShortHistory(history: bv16, taken: bool)
    ensures (ShiftedShort(history, taken) & 1 == 1) == taken
    ensures ShiftedShort(history, taken) >> 1 == history & 0x7FFF
  {
  }
}
