/**
 * The TAgged GEometric history length predictor: a bimodal table plus tagged tables
 * indexed and tagged by hashes of the branch address, the path history and the global
 * history folded to the table's own length (table 0 has the longest history). The
 * provider is the first table whose tag matches; newly allocated entries defer to the
 * alternate prediction while that has been doing better. On a misprediction an entry is
 * allocated in a table with a longer history; the useful bits that protect entries from
 * replacement age periodically.
 */
module TAGEPredictor {
  import opened Bits
  import opened Branches
  import opened PerceptronLearning
  import opened Shifts
  import opened Wrappers
  import opened Words

  const NUMBER_OF_TABLES_MINIMUM := 2
  const NUMBER_OF_TABLES_MAXIMUM := 50
  const TABLE_LENGTH_BITS_MINIMUM := 2
  const TABLE_LENGTH_BITS_MAXIMUM := 24
  const COUNTER_BITS_MINIMUM := 2
  const COUNTER_BITS_MAXIMUM := 8
  const TAG_BITS_MINIMUM := 2
  const TAG_BITS_MAXIMUM := 16
  const MINIMUM_HISTORY_LENGTH_MINIMUM := 1
  const MINIMUM_HISTORY_LENGTH_MAXIMUM := 200
  const MAXIMUM_HISTORY_LENGTH_MINIMUM := 5
  const MAXIMUM_HISTORY_LENGTH_MAXIMUM := 1048576
  const BIMODAL_TABLE_LENGTH_BITS_MINIMUM := 2
  const BIMODAL_TABLE_LENGTH_BITS_MAXIMUM := 24
  const PATH_HISTORY_LENGTH_MINIMUM := 0
  const PATH_HISTORY_LENGTH_MAXIMUM := 32
  const USEFUL_RESET_COUNTER_BITS_MINIMUM := 1
  const USEFUL_RESET_COUNTER_BITS_MAXIMUM := 32
  const TRUST_COUNTER_BITS_MINIMUM := 1
  const TRUST_COUNTER_BITS_MAXIMUM := 8

  /**
   * The ranges the predictor's properties allow, and a tag hash at least one bit wide for
   * the last table (the narrowest).
   */
  predicate Configuration(numberOfTables: nat, tableLengthBits: nat, counterBits: nat, tagBits: nat,
                          minimumHistoryLength: nat, maximumHistoryLength: nat, bimodalTableLengthBits: nat,
                          pathHistoryLength: nat, usefulResetCounterBits: nat, newlyAllocatedEntriesTrustCounterBits: nat)
  {
    NUMBER_OF_TABLES_MINIMUM <= numberOfTables <= NUMBER_OF_TABLES_MAXIMUM &&
    TABLE_LENGTH_BITS_MINIMUM <= tableLengthBits <= TABLE_LENGTH_BITS_MAXIMUM &&
    COUNTER_BITS_MINIMUM <= counterBits <= COUNTER_BITS_MAXIMUM &&
    TAG_BITS_MINIMUM <= tagBits <= TAG_BITS_MAXIMUM &&
    MINIMUM_HISTORY_LENGTH_MINIMUM <= minimumHistoryLength <= MINIMUM_HISTORY_LENGTH_MAXIMUM &&
    MAXIMUM_HISTORY_LENGTH_MINIMUM <= maximumHistoryLength <= MAXIMUM_HISTORY_LENGTH_MAXIMUM &&
    BIMODAL_TABLE_LENGTH_BITS_MINIMUM <= bimodalTableLengthBits <= BIMODAL_TABLE_LENGTH_BITS_MAXIMUM &&
    PATH_HISTORY_LENGTH_MINIMUM <= pathHistoryLength <= PATH_HISTORY_LENGTH_MAXIMUM &&
    USEFUL_RESET_COUNTER_BITS_MINIMUM <= usefulResetCounterBits <= USEFUL_RESET_COUNTER_BITS_MAXIMUM &&
    TRUST_COUNTER_BITS_MINIMUM <= newlyAllocatedEntriesTrustCounterBits <= TRUST_COUNTER_BITS_MAXIMUM &&
    TagWidth(numberOfTables - 1, numberOfTables, tagBits) >= 2
  }

  /** The largest value of a two-bit useful counter. */
  const USEFUL_MAXIMUM := 3

  /** A bimodal entry: its prediction bit, and a hysteresis bit shared by four entries. */
  datatype BimodalEntry = BimodalEntry(hysteresis: int, prediction: int)

  /** A tagged entry: a signed counter, a 16-bit tag and a two-bit useful counter. */
  datatype TaggedEntry = TaggedEntry(counter: int, tag: int, usefulBit: int)

  // ---------------------------------------------------------------------------
  // Values

  /** A 16-bit pattern read as a C# `short`. */
  function ToShort(v: int): (s: int)
    requires 0 <= v < 0x1_0000
    ensures -0x8000 <= s < 0x8000
    ensures s == v || s == v - 0x1_0000
  {
    if v < 0x8000 then v else v - 0x1_0000
  }

  /** The bit pattern of a C# `short`. */
  function ShortPattern(s: int): int {
    if s < 0 then s + 0x1_0000 else s
  }

  /** The largest value of a signed counter of `bits` bits. */
  function CounterMax(bits: nat): int
    requires bits >= 1
  {
    Pow2(bits - 1) - 1
  }

  /** The smallest value of a signed counter of `bits` bits. */
  function CounterMin(bits: nat): int
    requires bits >= 1
  {
    -(Pow2(bits - 1) as int)
  }

  // ---------------------------------------------------------------------------
  // The rolling hash of the global history

  /**
   * One step of the rolling hash: shift in the newest history bit, cancel the bit that
   * just left the window, and fold the bit shifted out at the top back into bit 0.
   */
  function RollStep(hash: Word, newest: Byte, dropped: Byte, lastEntryHashIndex: nat, bits: nat): (r: Word)
    requires bits < 32
    ensures r < Pow2(bits)
  {
    var added := WordOr(ShiftLeft(hash, 1), newest);
    var removed := WordXor(added, ShiftLeft(dropped, lastEntryHashIndex));
    var wrapped := WordXor(removed, ShiftRight(removed, bits));
    AndMask(wrapped, bits)
  }

  /** A hash of zero over a history of zeros stays zero: the reset state is consistent. */
  lemma RollStepZero(lastEntryHashIndex: nat, bits: nat)
    requires bits < 32
    ensures RollStep(0, 0, 0, lastEntryHashIndex, bits) == 0
  {
    ShlZero(1);
    ShlZero(lastEntryHashIndex % 32);
    SarZero(bits % 32);
    LowBitsZero(bits % 32);
  }

  /** The newest `historyLength` history bits compressed into `compressedLengthBits` bits. */
  class HistoryRollingHash {
    var historyHash: Word
    const compressedLengthBits: nat
    const historyLength: nat
    const lastEntryHashIndex: nat
    /** Which of the predictor's hashes this is; tells the hashes apart. */
    ghost const slot: nat

    /** The source divides by `historyHashBits`, so it must not be 0. */
    constructor (historyLength: nat, historyHashBits: nat, ghost slot: nat)
      requires 1 <= historyHashBits < 32
      ensures historyHash == 0 && this.historyLength == historyLength && compressedLengthBits == historyHashBits
      ensures lastEntryHashIndex == historyLength % historyHashBits && this.slot == slot
    {
      historyHash := 0;
      this.historyLength := historyLength;
      compressedLengthBits := historyHashBits;
      lastEntryHashIndex := historyLength % historyHashBits;
      this.slot := slot;
    }

    /** Rolls the newest history bit in and the one at `historyLength` out; the hash keeps its width. */
    method Update(binaryHistory: array<Byte>)
      requires historyLength < binaryHistory.Length && compressedLengthBits < 32
      modifies this
      ensures historyHash == RollStep(old(historyHash), binaryHistory[0], binaryHistory[historyLength],
                                      lastEntryHashIndex, compressedLengthBits)
      ensures historyHash == Rolled(this, old(historyHash), binaryHistory[..])
      ensures historyHash < Pow2(compressedLengthBits)
    {
      historyHash := WordOr(ShiftLeft(historyHash, 1), binaryHistory[0]);
      historyHash := WordXor(historyHash, ShiftLeft(binaryHistory[historyLength], lastEntryHashIndex));
      historyHash := WordXor(historyHash, ShiftRight(historyHash, compressedLengthBits));
      historyHash := AndMask(historyHash, compressedLengthBits);
    }

    method Reset()
      modifies this
      ensures historyHash == 0
    {
      historyHash := 0;
    }
  }

  // ---------------------------------------------------------------------------
  // Indices and tags

  /** The bimodal index: the low `bimodalTableLengthBits` bits of the address. */
  function BimodalIndex(address: Word, bimodalTableLengthBits: nat): (i: nat)
    requires bimodalTableLengthBits < 32
    ensures i < Pow2(bimodalTableLengthBits)
  {
    AndMask(address, bimodalTableLengthBits)
  }

  /** The path history mixed for table `t`: its low `pathHistoryBits` bits, folded to the table width and rotated by `t`. */
  function MixPathHistory(pathHistory: Word, pathHistoryBits: int, t: nat, tableLengthBits: nat): Word {
    var path := AndMask(pathHistory, pathHistoryBits);
    var a1 := AndMask(path, tableLengthBits);
    var a2 := ShiftRight(path, tableLengthBits);
    var a2' := Wrap(AndMask(ShiftLeft(a2, t), tableLengthBits) + ShiftRight(a2, tableLengthBits - t));
    var mixed := WordXor(a1, a2');
    Wrap(AndMask(ShiftLeft(mixed, t), tableLengthBits) + ShiftRight(mixed, tableLengthBits - t))
  }

  /** The bits of the index into tagged table `t` before masking: address, shifted address, folded history and mixed path. */
  function IndexHash(address: Word, historyHash: Word, pathHistory: Word, historyLength: nat, pathHistoryLength: nat,
                     t: nat, numberOfTables: nat, tableLengthBits: nat): Word
  {
    var a := address;
    var index := WordXor(WordXor(a, ShiftRight(a, tableLengthBits - numberOfTables + t + 1)), historyHash);
    var pathBits := if historyLength >= pathHistoryLength then pathHistoryLength else historyLength;
    WordXor(index, MixPathHistory(pathHistory, pathBits, t, tableLengthBits))
  }

  /** The index into tagged table `t`: its hash masked to the table. */
  function TaggedIndex(address: Word, historyHash: Word, pathHistory: Word, historyLength: nat, pathHistoryLength: nat,
                       t: nat, numberOfTables: nat, tableLengthBits: nat): (i: nat)
    requires tableLengthBits < 32
    ensures i < Pow2(tableLengthBits)
  {
    AndMask(IndexHash(address, historyHash, pathHistory, historyLength, pathHistoryLength, t, numberOfTables, tableLengthBits),
            tableLengthBits)
  }

  /** The width of table `t`'s tag: one bit less every second table. */
  function TagWidth(t: nat, numberOfTables: nat, tagBits: nat): int {
    tagBits - (t + numberOfTables % 2) / 2
  }

  /** When the last table's narrower tag hash is at least one bit wide, every tag is 2 to 16 bits wide. */
  lemma TagWidthsBounded(t: nat, numberOfTables: nat, tagBits: nat)
    requires t < numberOfTables && tagBits <= TAG_BITS_MAXIMUM
    requires TagWidth(numberOfTables - 1, numberOfTables, tagBits) >= 2
    ensures 2 <= TagWidth(t, numberOfTables, tagBits) <= 16
    ensures TagWidth(t + 2, numberOfTables, tagBits) == TagWidth(t, numberOfTables, tagBits) - 1
  {
  }

  /** Three tables and two tag bits give table 1 a zero-bit tag hash, which the source's hash constructor divides by. */
  lemma ZeroWidthTagHash()
    ensures TagWidth(1, 3, 2) - 1 == 0
  {
  }

  /** The tag of table `t`: address and two folded histories, masked to the tag width and stored as a `short`. */
  function TableTag(address: Word, hash0: Word, hash1: Word, width: int): (tag: int)
    requires 1 <= width <= 16
    ensures 0 <= ShortPattern(tag) < Pow2(width)
  {
    var pattern := AndMask(WordXor(WordXor(address, hash0), ShiftLeft(hash1, 1)), width);
    Pow2Monotone(width, 16);
    Pow2Sixteen();
    ToShort(pattern)
  }

  // ---------------------------------------------------------------------------
  // Counters

  /** `saturatedCounterUpdate`: one step toward the outcome, saturating in the signed `counterBits`-bit range. */
  function SaturatedCounterUpdate(currentCounter: int, taken: bool, counterBits: nat): (r: int)
    requires counterBits >= 1
    ensures taken ==> currentCounter <= r <= currentCounter + 1
    ensures !taken ==> currentCounter - 1 <= r <= currentCounter
    ensures r != currentCounter <==>
              (taken && currentCounter < CounterMax(counterBits)) || (!taken && currentCounter > CounterMin(counterBits))
    ensures CounterMin(counterBits) <= currentCounter <= CounterMax(counterBits) ==>
              CounterMin(counterBits) <= r <= CounterMax(counterBits)
  {
    if taken then
      if currentCounter < CounterMax(counterBits) then currentCounter + 1 else currentCounter
    else
      if currentCounter > CounterMin(counterBits) then currentCounter - 1 else currentCounter
  }

  /** `|2c + 1| == 1`: the counter sits on either side of zero. */
  predicate Weak(counter: int) {
    Abs(2 * counter + 1) == 1
  }

  lemma WeakIsCentered(counter: int)
    ensures Weak(counter) <==> counter == 0 || counter == -1
  {
  }

  /** An entry that looks freshly allocated: a weak counter and no usefulness. */
  predicate Fresh(e: TaggedEntry) {
    Weak(e.counter) && e.usefulBit == 0
  }

  /** The two-bit bimodal counter of entry `i`: its prediction bit over the hysteresis bit of entry `i >> 2`. */
  function BimodalCounter(table: seq<BimodalEntry>, i: nat): int
    requires i < |table|
  {
    2 * table[i].prediction + table[i / 4].hysteresis
  }

  /** `usefulBit & mask` for the masks of the periodic reset. */
  function UsefulAnd(usefulBit: int, mask: int): (r: int)
    requires 0 <= usefulBit <= USEFUL_MAXIMUM && (mask == 1 || mask == 2)
    ensures 0 <= r <= usefulBit
  {
    AndBelow(usefulBit, mask);
    And(usefulBit, mask)
  }

  /** Two resets in a row, one per mask, clear every useful counter. */
  lemma UsefulAndBoth(usefulBit: int)
    requires 0 <= usefulBit <= USEFUL_MAXIMUM
    ensures UsefulAnd(UsefulAnd(usefulBit, 1), 2) == 0 && UsefulAnd(UsefulAnd(usefulBit, 2), 1) == 0
  {
  }

  // ---------------------------------------------------------------------------
  // Allocation

  /** The least useful counter among the first `k` candidates, at most 3. */
  function MinimumUsefulness(c: seq<TaggedEntry>, k: nat): (m: int)
    requires k <= |c|
    ensures m <= USEFUL_MAXIMUM
    ensures forall i :: 0 <= i < k ==> m <= c[i].usefulBit
    ensures m == USEFUL_MAXIMUM || exists i :: 0 <= i < k && m == c[i].usefulBit
  {
    if k == 0 then USEFUL_MAXIMUM
    else
      var m := MinimumUsefulness(c, k - 1);
      if c[k - 1].usefulBit < m then c[k - 1].usefulBit else m
  }

  /** The number of consecutive 1 bits at the bottom of `x`, looking at no more than `fuel` bits. */
  function TrailingOnes(x: Word, fuel: nat): nat
    decreases fuel
  {
    if fuel == 0 || x % 2 == 0 then 0 else 1 + TrailingOnes(ShiftRight(x, 1), fuel - 1)
  }

  /** A pattern below `2^r` has at most `r` trailing ones. */
  lemma {:induction false} TrailingOnesBelow(y: Word, r: nat, fuel: nat)
    requires r < 32 && y < Pow2(r)
    ensures TrailingOnes(y, fuel) <= r
  {
    if fuel > 0 && y % 2 != 0 {
      assert r >= 1;
      Pow2BelowWord(r);
      assert Sar(y, 1) == y / 2;
      TrailingOnesBelow(y / 2, r - 1, fuel - 1);
    }
  }

  /** The table the allocation search starts from: one below the provider, minus the trailing ones of the random bits. */
  function StartTable(randomNumber: Word, providerIndex: nat): (start: int)
    requires providerIndex >= 1
    ensures 0 <= start < providerIndex
  {
    var randomBits := AndMask(randomNumber, providerIndex - 1);
    TrailingOnesBelow(randomBits, (providerIndex - 1) % 32, 32);
    providerIndex - 1 - TrailingOnes(randomBits, 32)
  }

  /** The first table at or below `start`, searching downward, whose candidate has usefulness `m`. */
  function AllocationTable(c: seq<TaggedEntry>, start: int, m: int): (r: Option<nat>)
    requires start < |c|
    ensures r.Some? ==> r.value <= start && c[r.value].usefulBit == m
    ensures r.Some? ==> forall i :: r.value < i <= start ==> c[i].usefulBit != m
    ensures r.None? ==> forall i :: 0 <= i <= start ==> c[i].usefulBit != m
    decreases start + 1
  {
    if start < 0 then None
    else if c[start].usefulBit == m then Some(start)
    else AllocationTable(c, start - 1, m)
  }

  /** The entry allocated for a branch: a weak counter toward the outcome, the branch's tag, no usefulness. */
  function NewEntry(taken: bool, tag: int): TaggedEntry {
    TaggedEntry(if taken then 0 else -1, tag, 0)
  }

  /** A newly allocated entry looks fresh and predicts the outcome. */
  lemma NewEntryFresh(taken: bool, tag: int)
    ensures Fresh(NewEntry(taken, tag)) && (NewEntry(taken, tag).counter >= 0 <==> taken)
  {
  }

  /** Every one of the first `k` candidates one less useful. */
  function Aged(c: seq<TaggedEntry>, k: nat): (a: seq<TaggedEntry>)
    requires k <= |c|
    ensures |a| == |c|
  {
    seq(|c|, i requires 0 <= i < |c| => if i < k then c[i].(usefulBit := c[i].usefulBit - 1) else c[i])
  }

  /** The random number generator: an affine step on the seed, kept to `2 * numberOfTables` bits (modulo 32). */
  function NextRandom(seed: Word, numberOfTables: nat): (r: Word)
    ensures r < Pow2((2 * numberOfTables) % 32)
  {
    AndMask(Wrap((ShiftLeft(1, 2 * numberOfTables) + 1) * seed + 0xf3f531), 2 * numberOfTables)
  }

  /**
   * The first table from `from` on whose candidate carries that table's tag, searching
   * toward shorter histories; `|c|` when there is none.
   */
  function FirstMatch(c: seq<TaggedEntry>, tags: seq<int>, from: nat): (t: nat)
    requires |tags| == |c|
    ensures t == |c| || from <= t < |c|
    decreases |c| - from
  {
    if from >= |c| then |c|
    else if c[from].tag == tags[from] then from
    else FirstMatch(c, tags, from + 1)
  }

  /**
   * The outcome of a lookup among the selected entries `c`: the provider is the first
   * entry carrying its table's tag and the alternate the next one (`|c|` for none); the
   * alternate's guess falls back to the bimodal guess, and a provider entry that looks
   * freshly allocated defers to the alternate while the trust counter is not negative.
   */
  ghost predicate LookupOutcome(c: seq<TaggedEntry>, tags: seq<int>, bimodalGuess: bool, trust: int, provider: int,
                                alternative: int, alternativeGuess: bool, guess: bool)
    requires |tags| == |c|
  {
    provider == FirstMatch(c, tags, 0) &&
    alternative == (if provider < |c| then FirstMatch(c, tags, provider + 1) else |c|) &&
    alternativeGuess == (if provider < |c| && alternative < |c| then c[alternative].counter >= 0 else bimodalGuess) &&
    (provider < |c| ==> guess == if trust >= 0 && Fresh(c[provider]) then alternativeGuess else c[provider].counter >= 0) &&
    (provider == |c| ==> guess == alternativeGuess)
  }

  /** The search stops at a match and passes over no table that matches. */
  lemma {:induction false} FirstMatchIsFirst(c: seq<TaggedEntry>, tags: seq<int>, from: nat)
    requires |tags| == |c|
    ensures var t := FirstMatch(c, tags, from);
            (t == |c| || c[t].tag == tags[t]) &&
            forall j :: from <= j < |c| && j < t ==> c[j].tag != tags[j]
    decreases |c| - from
  {
    if from < |c| && c[from].tag != tags[from] {
      FirstMatchIsFirst(c, tags, from + 1);
    }
  }

  /**
   * The width of a hash of kind `kind` for table `t`: 0 for the index hash, as wide as a
   * table index; 1 and 2 for the two tag hashes, the second one bit narrower.
   */
  function HashWidth(kind: nat, t: nat, numberOfTables: nat, tableLengthBits: nat, tagBits: nat): int {
    if kind == 0 then tableLengthBits else TagWidth(t, numberOfTables, tagBits) - (kind - 1)
  }

  /**
   * `hs` holds one hash of kind `kind` per table, each in `hashes`, with its table's
   * history length and width and the slot `kind * numberOfTables + t`.
   */
  ghost predicate HashesWired(hs: seq<HistoryRollingHash>, kind: nat, lengths: seq<nat>, numberOfTables: nat,
                              tableLengthBits: nat, tagBits: nat, hashes: set<HistoryRollingHash>)
  {
    |hs| == numberOfTables && |lengths| == numberOfTables &&
    forall t :: 0 <= t < numberOfTables ==>
      hs[t] in hashes && hs[t].slot == kind * numberOfTables + t && hs[t].historyLength == lengths[t] &&
      hs[t].compressedLengthBits == HashWidth(kind, t, numberOfTables, tableLengthBits, tagBits)
  }

  /** Wiring into a set carries over to any larger set. */
  lemma HashesWiredLarger(hs: seq<HistoryRollingHash>, kind: nat, lengths: seq<nat>, numberOfTables: nat,
                          tableLengthBits: nat, tagBits: nat, hashes: set<HistoryRollingHash>, more: set<HistoryRollingHash>)
    requires HashesWired(hs, kind, lengths, numberOfTables, tableLengthBits, tagBits, hashes) && hashes <= more
    ensures HashesWired(hs, kind, lengths, numberOfTables, tableLengthBits, tagBits, more)
  {
  }

  /**
   * The history length of each table: the longest history for the first table, the
   * geometric series in between, and the shortest (below the longest) for the last.
   */
  function HistoryLengths(minimumHistoryLength: nat, maximumHistoryLength: nat, geometricLengths: seq<nat>): (r: seq<nat>)
    requires 1 <= minimumHistoryLength && 2 <= maximumHistoryLength
    requires forall i :: 0 <= i < |geometricLengths| ==> 1 <= geometricLengths[i] < maximumHistoryLength
    ensures |r| == |geometricLengths| + 2 && r[1..|r| - 1] == geometricLengths
    ensures r[0] == maximumHistoryLength - 1
    ensures r[|r| - 1] == if minimumHistoryLength >= maximumHistoryLength then maximumHistoryLength - 1 else minimumHistoryLength
    ensures forall t :: 0 <= t < |r| ==> 1 <= r[t] < maximumHistoryLength
  {
    var shortest := if minimumHistoryLength >= maximumHistoryLength then maximumHistoryLength - 1 else minimumHistoryLength;
    var r := [maximumHistoryLength - 1] + geometricLengths + [shortest];
    assert r[1..|r| - 1] == geometricLengths;
    r
  }

  /** The index hash and the two tag hashes of every table, all new and zero, wired into one set. */
  method NewPredictorHashes(lengths: seq<nat>, numberOfTables: nat, tableLengthBits: nat, tagBits: nat)
    returns (tableHashes: seq<HistoryRollingHash>, tagHashes: seq<seq<HistoryRollingHash>>, ghost members: set<HistoryRollingHash>)
    requires |lengths| == numberOfTables && 1 <= tableLengthBits < 32 && tagBits <= TAG_BITS_MAXIMUM
    requires numberOfTables >= 1 && TagWidth(numberOfTables - 1, numberOfTables, tagBits) >= 2
    ensures |tagHashes| == 2
    ensures HashesWired(tableHashes, 0, lengths, numberOfTables, tableLengthBits, tagBits, members)
    ensures HashesWired(tagHashes[0], 1, lengths, numberOfTables, tableLengthBits, tagBits, members)
    ensures HashesWired(tagHashes[1], 2, lengths, numberOfTables, tableLengthBits, tagBits, members)
    ensures forall t :: 0 <= t < numberOfTables ==>
              tableHashes[t].historyHash == 0 && tagHashes[0][t].historyHash == 0 && tagHashes[1][t].historyHash == 0
  {
    var hashes0, members0 := NewHashes(lengths, 0, numberOfTables, tableLengthBits, tagBits);
    var hashes1, members1 := NewHashes(lengths, 1, numberOfTables, tableLengthBits, tagBits);
    var hashes2, members2 := NewHashes(lengths, 2, numberOfTables, tableLengthBits, tagBits);
    tableHashes, tagHashes, members := hashes0, [hashes1, hashes2], members0 + members1 + members2;
    HashesWiredLarger(hashes0, 0, lengths, numberOfTables, tableLengthBits, tagBits, members0, members);
    HashesWiredLarger(hashes1, 1, lengths, numberOfTables, tableLengthBits, tagBits, members1, members);
    HashesWiredLarger(hashes2, 2, lengths, numberOfTables, tableLengthBits, tagBits, members2, members);
  }

  /** One new rolling hash of kind `kind` per table: the table's history length and width, slot `kind * numberOfTables + t`, hash zero. */
  method NewHashes(lengths: seq<nat>, kind: nat, numberOfTables: nat, tableLengthBits: nat, tagBits: nat)
    returns (hs: seq<HistoryRollingHash>, ghost members: set<HistoryRollingHash>)
    requires kind <= 2 && |lengths| == numberOfTables && 1 <= tableLengthBits < 32 && tagBits <= TAG_BITS_MAXIMUM
    requires numberOfTables >= 1 && TagWidth(numberOfTables - 1, numberOfTables, tagBits) >= 2
    ensures |hs| == numberOfTables
    ensures forall t :: 0 <= t < |hs| ==>
              hs[t].slot == kind * numberOfTables + t && hs[t].historyLength == lengths[t] &&
              hs[t].compressedLengthBits == HashWidth(kind, t, numberOfTables, tableLengthBits, tagBits) &&
              hs[t].historyHash == 0
    ensures forall t :: 0 <= t < |hs| ==> hs[t] in members
    ensures HashesWired(hs, kind, lengths, numberOfTables, tableLengthBits, tagBits, members)
  {
    hs, members := [], {};
    while |hs| < numberOfTables
      invariant |hs| <= numberOfTables
      invariant forall t :: 0 <= t < |hs| ==> hs[t] in members
      invariant forall t :: 0 <= t < |hs| ==>
                  hs[t].slot == kind * numberOfTables + t && hs[t].historyLength == lengths[t] &&
                  hs[t].compressedLengthBits == HashWidth(kind, t, numberOfTables, tableLengthBits, tagBits) &&
                  hs[t].historyHash == 0
    {
      TagWidthsBounded(|hs|, numberOfTables, tagBits);
      var h := new HistoryRollingHash(lengths[|hs|], HashWidth(kind, |hs|, numberOfTables, tableLengthBits, tagBits),
                                      kind * numberOfTables + |hs|);
      hs, members := hs + [h], members + {h};
    }
  }

  /** Tagged counters in their signed `counterBits`-bit range, useful counters in 0..3. */
  ghost predicate EntriesInRange(a: array2<TaggedEntry>, counterBits: nat)
    reads a
  {
    counterBits >= 1 &&
    forall t, i :: 0 <= t < a.Length0 && 0 <= i < a.Length1 ==>
      CounterMin(counterBits) <= a[t, i].counter <= CounterMax(counterBits) && 0 <= a[t, i].usefulBit <= USEFUL_MAXIMUM
  }

  /** Every index selects an entry of a table of `2^tableLengthBits` entries. */
  ghost predicate IndexesInRange(a: array<int>, tableLengthBits: nat)
    reads a
  {
    forall t :: 0 <= t < a.Length ==> 0 <= a[t] < Pow2(tableLengthBits)
  }

  /** Bimodal prediction and hysteresis are bits. */
  ghost predicate BimodalInRange(a: array<BimodalEntry>)
    reads a
  {
    forall i :: 0 <= i < a.Length ==> 0 <= a[i].prediction <= 1 && 0 <= a[i].hysteresis <= 1
  }

  /**
   * The predictor's arrays: a zero history of `historyLength` bytes, zero indexes for the
   * tagged tables, a bimodal table predicting not taken with the hysteresis bits set, and
   * zero tagged tables.
   */
  method NewTables(historyLength: nat, numberOfTables: nat, bimodalLengthBits: nat, tableLengthBits: nat, counterBits: nat)
    returns (history: array<Byte>, indexes: array<int>, bimodal: array<BimodalEntry>, tagged: array2<TaggedEntry>)
    ensures fresh(history) && fresh(indexes) && fresh(bimodal) && fresh(tagged)
    ensures history.Length == historyLength && indexes.Length == numberOfTables && bimodal.Length == Pow2(bimodalLengthBits)
    ensures tagged.Length0 == numberOfTables && tagged.Length1 == Pow2(tableLengthBits)
    ensures forall i :: 0 <= i < historyLength ==> history[i] == 0
    ensures forall i :: 0 <= i < numberOfTables ==> indexes[i] == 0
    ensures forall i :: 0 <= i < bimodal.Length ==> bimodal[i] == BimodalEntry(1, 0)
    ensures forall t, i :: 0 <= t < numberOfTables && 0 <= i < tagged.Length1 ==> tagged[t, i] == TaggedEntry(0, 0, 0)
    ensures counterBits >= 1 ==> EntriesInRange(tagged, counterBits)
    ensures BimodalInRange(bimodal) && IndexesInRange(indexes, tableLengthBits)
  {
    history := new Byte[historyLength](_ => 0);
    indexes := new int[numberOfTables](_ => 0);
    bimodal := new BimodalEntry[Pow2(bimodalLengthBits)](_ => BimodalEntry(1, 0));
    tagged := new TaggedEntry[numberOfTables, Pow2(tableLengthBits)]((_, _) => TaggedEntry(0, 0, 0));
  }

  // ---------------------------------------------------------------------------
  // The update, step by step

  /**
   * `updateBimodalPredictor` at entry `i`: a correct prediction sets the hysteresis bit it
   * shares with three neighbours to the outcome; a wrong one steps the two-bit counter
   * (prediction bit over shared hysteresis bit) toward the outcome and writes both bits back.
   */
  function BimodalStep(table: seq<BimodalEntry>, i: nat, taken: bool): (r: seq<BimodalEntry>)
    requires i < |table|
    ensures |r| == |table|
  {
    if taken == (table[i].prediction > 0) then
      table[i / 4 := table[i / 4].(hysteresis := if taken then 1 else 0)]
    else
      var inter := Train(BimodalCounter(table, i), taken, 0, 3);
      var written := table[i := table[i].(prediction := inter / 2)];
      written[i / 4 := written[i / 4].(hysteresis := inter % 2)]
  }

  /** Bits in every bimodal entry. */
  predicate BimodalBits(table: seq<BimodalEntry>) {
    forall j :: 0 <= j < |table| ==> 0 <= table[j].prediction <= 1 && 0 <= table[j].hysteresis <= 1
  }

  /**
   * Entry `i` behaves as a saturating two-bit counter: a correct prediction saturates it
   * toward the outcome, a wrong one steps it by one. Only entry `i`'s prediction bit and
   * the hysteresis bit of entry `i / 4` can change, and all stay bits.
   */
  lemma BimodalStepCounter(table: seq<BimodalEntry>, i: nat, taken: bool)
    requires i < |table| && BimodalBits(table)
    ensures var r := BimodalStep(table, i, taken);
            BimodalBits(r) &&
            BimodalCounter(r, i) ==
              (if taken == (table[i].prediction > 0) then (if taken then 3 else 0)
               else Train(BimodalCounter(table, i), taken, 0, 3)) &&
            (forall j :: 0 <= j < |r| && j != i ==> r[j].prediction == table[j].prediction) &&
            (forall j :: 0 <= j < |r| && j != i / 4 ==> r[j].hysteresis == table[j].hysteresis)
  {
    var r := BimodalStep(table, i, taken);
    if taken != (table[i].prediction > 0) {
      var inter := Train(BimodalCounter(table, i), taken, 0, 3);
      assert 0 <= inter <= 3;
      assert r[i].prediction == inter / 2 && r[i / 4].hysteresis == inter % 2;
    }
  }

  /**
   * The provider entry after an update: its counter one step toward the outcome; when the
   * prediction and the alternate prediction differed, its useful counter one up (at most
   * 3) if the prediction was right and one down (at least 0) if not.
   */
  function ProviderStep(e: TaggedEntry, taken: bool, prediction: bool, alternativePrediction: bool, counterBits: nat): TaggedEntry
    requires counterBits >= 1
  {
    var trained := e.(counter := SaturatedCounterUpdate(e.counter, taken, counterBits));
    if prediction == alternativePrediction then trained
    else trained.(usefulBit := Train(e.usefulBit, prediction == taken, 0, USEFUL_MAXIMUM))
  }

  /** The provider step keeps the tag and keeps counter and useful counter in range. */
  lemma ProviderStepInRange(e: TaggedEntry, taken: bool, prediction: bool, alternativePrediction: bool, counterBits: nat)
    requires counterBits >= 1
    requires CounterMin(counterBits) <= e.counter <= CounterMax(counterBits) && 0 <= e.usefulBit <= USEFUL_MAXIMUM
    ensures var r := ProviderStep(e, taken, prediction, alternativePrediction, counterBits);
            r.tag == e.tag && CounterMin(counterBits) <= r.counter <= CounterMax(counterBits) &&
            0 <= r.usefulBit <= USEFUL_MAXIMUM
  {
    TrainInRange(e.usefulBit, prediction == taken, 0, USEFUL_MAXIMUM);
  }

  /**
   * The candidates after a misprediction that calls for an allocation in a table with a
   * longer history than the provider: all of them age when none is free; otherwise the
   * first free one at or below the random start table gets a new entry, if there is one.
   */
  function AllocationEffect(c: seq<TaggedEntry>, provider: nat, tags: seq<int>, taken: bool, randomNumber: Word): (r: seq<TaggedEntry>)
    requires 0 < provider <= |c| && |tags| == |c|
    ensures |r| == |c|
  {
    if MinimumUsefulness(c, provider) > 0 then Aged(c, provider)
    else
      match AllocationTable(c, StartTable(randomNumber, provider), 0)
      case None => c
      case Some(j) => c[j := NewEntry(taken, tags[j])]
  }

  /**
   * Allocation never touches the provider or a table with a shorter history, changes at
   * most one candidate's tag, and only lowers useful counters when it ages.
   */
  lemma AllocationEffectBelowProvider(c: seq<TaggedEntry>, provider: nat, tags: seq<int>, taken: bool, randomNumber: Word)
    requires 0 < provider <= |c| && |tags| == |c|
    ensures var r := AllocationEffect(c, provider, tags, taken, randomNumber);
            (forall t :: provider <= t < |c| ==> r[t] == c[t]) &&
            (MinimumUsefulness(c, provider) > 0 ==>
               forall t :: 0 <= t < provider ==> r[t].tag == c[t].tag && r[t].usefulBit == c[t].usefulBit - 1) &&
            (MinimumUsefulness(c, provider) == 0 ==>
               forall s, t :: 0 <= s < t < |c| && r[s] != c[s] ==> r[t] == c[t])
  {
  }

  /** `usefulBit & mask` for a useful counter; the masks used are 1 and 2. */
  function MaskedUseful(usefulBit: int, mask: nat): int {
    if usefulBit < 0 then usefulBit else And(usefulBit, mask)
  }

  /** An entry after the periodic reset with mask `mask`, if one is due. */
  function MaybeReset(e: TaggedEntry, mask: Option<nat>): TaggedEntry {
    if mask.None? then e else e.(usefulBit := MaskedUseful(e.usefulBit, mask.value))
  }

  /** The candidates after the periodic reset with mask `mask`, if one is due. */
  function ResetCandidates(c: seq<TaggedEntry>, mask: Option<nat>): (r: seq<TaggedEntry>)
    ensures |r| == |c|
  {
    seq(|c|, t requires 0 <= t < |c| => MaybeReset(c[t], mask))
  }

  /**
   * Candidates `c` after the periodic reset with `mask`, if due, and the step of the
   * provider `provider` (none when it is `|c|`).
   */
  function ResetAndTrained(c: seq<TaggedEntry>, mask: Option<nat>, provider: nat, taken: bool, prediction: bool,
                           alternativePrediction: bool, counterBits: nat): (r: seq<TaggedEntry>)
    requires provider <= |c| && counterBits >= 1
    ensures |r| == |c|
  {
    var reset := ResetCandidates(c, mask);
    if provider < |c|
    then reset[provider := ProviderStep(reset[provider], taken, prediction, alternativePrediction, counterBits)]
    else reset
  }

  /**
   * An allocation is due on a misprediction with a provider other than table 0, unless
   * the provider (`provider < |c|`) looks fresh and itself predicted the outcome.
   */
  predicate AllocationDue(c: seq<TaggedEntry>, provider: nat, prediction: bool, taken: bool)
    requires provider <= |c|
    ensures AllocationDue(c, provider, prediction, taken) ==> prediction != taken && 0 < provider
    ensures prediction != taken && 0 < provider == |c| ==> AllocationDue(c, provider, prediction, taken)
  {
    prediction != taken && provider > 0 &&
    !(provider < |c| && Fresh(c[provider]) && (c[provider].counter >= 0) == taken)
  }

  /**
   * The trust counter after an update: a fresh provider that disagreed with the alternate
   * moves it one step toward whichever of the two was right, within its signed range of
   * `trustBits` bits.
   */
  function TrustStep(c: seq<TaggedEntry>, provider: nat, alternativePrediction: bool, trust: int, trustBits: nat,
                     taken: bool): (r: int)
    requires provider <= |c|
    requires -(Pow2(trustBits) as int) <= trust < Pow2(trustBits)
    ensures -(Pow2(trustBits) as int) <= r < Pow2(trustBits)
    ensures trust - 1 <= r <= trust + 1
    ensures r > trust ==> alternativePrediction == taken && provider < |c| && Fresh(c[provider])
    ensures r < trust ==> alternativePrediction != taken && provider < |c| && Fresh(c[provider])
  {
    if provider < |c| && Fresh(c[provider]) && (c[provider].counter >= 0) != alternativePrediction
    then
      TrainInRange(trust, alternativePrediction == taken, -(Pow2(trustBits) as int), Pow2(trustBits) - 1);
      Train(trust, alternativePrediction == taken, -(Pow2(trustBits) as int), Pow2(trustBits) - 1)
    else trust
  }

  /**
   * The candidates `c` after the table part of an update: the allocation if one is due,
   * then the periodic reset with `mask`, then the step of the provider.
   */
  function CandidatesUpdated(c: seq<TaggedEntry>, provider: nat, prediction: bool, alternativePrediction: bool,
                             taken: bool, tags: seq<int>, randomNumber: Word, mask: Option<nat>,
                             counterBits: nat): (r: seq<TaggedEntry>)
    requires provider <= |c| && |tags| == |c| && counterBits >= 1
    ensures |r| == |c|
  {
    var afterAllocation := if AllocationDue(c, provider, prediction, taken) then AllocationEffect(c, provider, tags, taken, randomNumber)
                           else c;
    ResetAndTrained(afterAllocation, mask, provider, taken, prediction, alternativePrediction, counterBits)
  }

  /**
   * The periodic reset of the useful counters once the reset counter has reached
   * `counter`: due when its low `bits` bits (modulo 32) are clear; the mask keeps bit 0
   * when bit `bits` of the counter is set and bit 1 otherwise.
   */
  function UsefulResetMask(counter: Word, bits: nat): (mask: Option<nat>)
    ensures mask.Some? ==> mask.value == 1 || mask.value == 2
  {
    if AndMask(counter, bits) != 0 then None
    else if And(ShiftRight(counter, bits), 1) == 0 then Some(2) else Some(1)
  }

  /** A reset keeps a useful counter in 0..3 and never raises it; two resets in a row clear it. */
  lemma MaybeResetInRange(e: TaggedEntry, mask: Option<nat>)
    requires 0 <= e.usefulBit <= USEFUL_MAXIMUM && (mask.Some? ==> mask.value == 1 || mask.value == 2)
    ensures MaybeReset(e, mask).tag == e.tag && MaybeReset(e, mask).counter == e.counter
    ensures 0 <= MaybeReset(e, mask).usefulBit <= e.usefulBit
  {
    if mask.Some? {
      AndBelow(e.usefulBit, mask.value);
    }
  }

  /** `(pathHistory << 1) + (address & 1)`, kept to its low `pathHistoryLength` bits. */
  function NextPathHistory(pathHistory: Word, address: Word, pathHistoryLength: nat): (r: Word)
    ensures r < Pow2(pathHistoryLength % 32)
  {
    AndMask(Wrap(ShiftLeft(pathHistory, 1) + address % 2), pathHistoryLength)
  }

  /** The newest history byte: 1 for a taken or an unconditional branch. */
  function NewestHistoryBit(info: BranchInfo, taken: bool): Byte {
    if !IsConditional(info) || taken then 1 else 0
  }

  /** Shifts the history one place toward the end and puts `newest` in front. */
  method ShiftInNewest(h: array<Byte>, newest: Byte)
    requires h.Length >= 1
    modifies h
    ensures h[0] == newest
    ensures forall i :: 1 <= i < h.Length ==> h[i] == old(h[i - 1])
  {
    ghost var before := h[..];
    var i := h.Length - 1;
    while i > 0
      invariant 0 <= i < h.Length
      invariant forall k :: 0 <= k <= i ==> h[k] == before[k]
      invariant forall k :: i < k < h.Length ==> h[k] == before[k - 1]
    {
      h[i] := h[i - 1];
      i := i - 1;
    }
    h[0] := newest;
  }

  /** Stores `s` in `a`, entry by entry. */
  method StoreIndexes(a: array<int>, s: seq<int>)
    requires |s| == a.Length
    modifies a
    ensures a[..] == s
  {
    var i := 0;
    while i < a.Length
      invariant 0 <= i <= a.Length
      invariant forall t :: 0 <= t < i ==> a[t] == s[t]
    {
      a[i] := s[i];
      i := i + 1;
    }
    assert a[..] == s;
  }

  /** Hashes over the history of the given lengths, each narrower than a word. */
  ghost predicate Rollable(hs: seq<HistoryRollingHash>, historyLength: nat) {
    forall t :: 0 <= t < |hs| ==> hs[t].historyLength < historyLength && hs[t].compressedLengthBits < 32
  }

  /** The hashes of `hs` as a set. */
  function HashSet(hs: seq<HistoryRollingHash>): set<HistoryRollingHash> {
    set t | 0 <= t < |hs| :: hs[t]
  }

  /** Three equally long rows of hashes, numbered apart by their slots, so no hash occurs twice. */
  ghost predicate Separate(a: seq<HistoryRollingHash>, b: seq<HistoryRollingHash>, c: seq<HistoryRollingHash>) {
    |a| == |b| == |c| &&
    forall t :: 0 <= t < |a| ==> a[t].slot == t && b[t].slot == |a| + t && c[t].slot == 2 * |a| + t
  }

  /**
   * Rolls the hashes of every table over the history, table by table: the index hash
   * `a[t]` and the two tag hashes `b[t]` and `c[t]`.
   */
  method RollTables(a: seq<HistoryRollingHash>, b: seq<HistoryRollingHash>, c: seq<HistoryRollingHash>, history: array<Byte>)
    requires Separate(a, b, c)
    requires Rollable(a, history.Length) && Rollable(b, history.Length) && Rollable(c, history.Length)
    modifies HashSet(a), HashSet(b), HashSet(c)
    ensures forall t :: 0 <= t < |a| ==>
              a[t].historyHash == Rolled(a[t], old(a[t].historyHash), history[..]) &&
              b[t].historyHash == Rolled(b[t], old(b[t].historyHash), history[..]) &&
              c[t].historyHash == Rolled(c[t], old(c[t].historyHash), history[..])
  {
    ghost var h := history[..];
    RollRow(a, 0, history, h);
    RollRow(b, |a|, history, h);
    RollRow(c, 2 * |a|, history, h);
  }

  /** Rolls every hash of one row, the hashes told apart by consecutive slots from `first`. */
  method RollRow(hs: seq<HistoryRollingHash>, first: nat, history: array<Byte>, ghost h: seq<Byte>)
    requires h == history[..] && Rollable(hs, history.Length)
    requires forall t :: 0 <= t < |hs| ==> hs[t].slot == first + t
    modifies HashSet(hs)
    ensures forall t :: 0 <= t < |hs| ==> hs[t].historyHash == Rolled(hs[t], old(hs[t].historyHash), h)
  {
    var i := 0;
    while i < |hs|
      invariant 0 <= i <= |hs|
      invariant forall t {:trigger Rolled(hs[t], old(hs[t].historyHash), h)} :: 0 <= t < i ==>
                  hs[t].historyHash == Rolled(hs[t], old(hs[t].historyHash), h)
      invariant forall t :: i <= t < |hs| ==> hs[t].historyHash == old(hs[t].historyHash)
    {
      hs[i].Update(history);
      i := i + 1;
    }
  }

  /** Clears every hash of `hs`. */
  method ClearAll(hs: seq<HistoryRollingHash>)
    modifies set t | 0 <= t < |hs| :: hs[t]
    ensures forall t :: 0 <= t < |hs| ==> hs[t].historyHash == 0
  {
    var i := 0;
    while i < |hs|
      invariant 0 <= i <= |hs|
      invariant forall t :: 0 <= t < i ==> hs[t].historyHash == 0
    {
      hs[i].Reset();
      i := i + 1;
    }
  }

  /** Applies the periodic reset with `mask` to every useful counter of `a`, row by row. */
  method ResetUsefulBits(a: array2<TaggedEntry>, mask: nat, counterBits: nat)
    requires mask == 1 || mask == 2
    requires EntriesInRange(a, counterBits)
    modifies a
    ensures EntriesInRange(a, counterBits)
    ensures forall t, c :: 0 <= t < a.Length0 && 0 <= c < a.Length1 ==> a[t, c] == MaybeReset(old(a[t, c]), Some(mask))
  {
    var t := 0;
    while t < a.Length0
      invariant 0 <= t <= a.Length0
      invariant EntriesInRange(a, counterBits)
      invariant forall s, c :: 0 <= s < t && 0 <= c < a.Length1 ==> a[s, c] == MaybeReset(old(a[s, c]), Some(mask))
      invariant forall s, c :: t <= s < a.Length0 && 0 <= c < a.Length1 ==> a[s, c] == old(a[s, c])
    {
      ResetUsefulRow(a, t, mask, counterBits);
      t := t + 1;
    }
  }

  /** Applies the periodic reset with `mask` to row `t` of `a`. */
  method ResetUsefulRow(a: array2<TaggedEntry>, t: nat, mask: nat, counterBits: nat)
    requires t < a.Length0 && (mask == 1 || mask == 2)
    requires EntriesInRange(a, counterBits)
    modifies a
    ensures EntriesInRange(a, counterBits)
    ensures forall c :: 0 <= c < a.Length1 ==> a[t, c] == MaybeReset(old(a[t, c]), Some(mask))
    ensures forall s, c :: 0 <= s < a.Length0 && 0 <= c < a.Length1 && s != t ==> a[s, c] == old(a[s, c])
  {
    var c := 0;
    while c < a.Length1
      invariant 0 <= c <= a.Length1
      invariant EntriesInRange(a, counterBits)
      invariant forall d :: 0 <= d < c ==> a[t, d] == MaybeReset(old(a[t, d]), Some(mask))
      invariant forall s, d :: 0 <= s < a.Length0 && 0 <= d < a.Length1 && (s != t || d >= c) ==> a[s, d] == old(a[s, d])
    {
      MaybeResetInRange(a[t, c], Some(mask));
      a[t, c] := MaybeReset(a[t, c], Some(mask));
      c := c + 1;
    }
  }

  /** Every entry of `a` becomes `e`. */
  method FillTagged(a: array2<TaggedEntry>, e: TaggedEntry)
    modifies a
    ensures forall t, c :: 0 <= t < a.Length0 && 0 <= c < a.Length1 ==> a[t, c] == e
  {
    var t := 0;
    while t < a.Length0
      invariant 0 <= t <= a.Length0
      invariant forall s, c :: 0 <= s < t && 0 <= c < a.Length1 ==> a[s, c] == e
    {
      var c := 0;
      while c < a.Length1
        invariant 0 <= c <= a.Length1
        invariant forall s, d :: 0 <= s < t && 0 <= d < a.Length1 ==> a[s, d] == e
        invariant forall d :: 0 <= d < c ==> a[t, d] == e
      {
        a[t, c] := e;
        c := c + 1;
      }
      t := t + 1;
    }
  }

  /** Every byte of `a` becomes `v`. */
  method FillBytes(a: array<Byte>, v: Byte)
    modifies a
    ensures forall i :: 0 <= i < a.Length ==> a[i] == v
  {
    var i := 0;
    while i < a.Length
      invariant 0 <= i <= a.Length
      invariant forall k :: 0 <= k < i ==> a[k] == v
    {
      a[i] := v;
      i := i + 1;
    }
  }

  /** Every entry of `a` becomes `e`. */
  method FillBimodal(a: array<BimodalEntry>, e: BimodalEntry)
    modifies a
    ensures forall i :: 0 <= i < a.Length ==> a[i] == e
  {
    var i := 0;
    while i < a.Length
      invariant 0 <= i <= a.Length
      invariant forall k :: 0 <= k < i ==> a[k] == e
    {
      a[i] := e;
      i := i + 1;
    }
  }

  /** The hash `h` after one roll over `history`. */
  function Rolled(h: HistoryRollingHash, before: Word, history: seq<Byte>): Word
    requires h.historyLength < |history| && h.compressedLengthBits < 32
  {
    RollStep(before, history[0], history[h.historyLength], h.lastEntryHashIndex, h.compressedLengthBits)
  }

  /** `a[t, idx[t]]` one less useful for every `t < k`, from the highest down; nothing else changes. */
  method AgeEntries(a: array2<TaggedEntry>, idx: array<int>, k: nat, counterBits: nat)
    requires k <= idx.Length <= a.Length0
    requires forall t :: 0 <= t < idx.Length ==> 0 <= idx[t] < a.Length1
    requires EntriesInRange(a, counterBits)
    requires forall t :: 0 <= t < k ==> a[t, idx[t]].usefulBit >= 1
    modifies a
    ensures EntriesInRange(a, counterBits)
    ensures forall t :: 0 <= t < k ==> a[t, idx[t]] == old(a[t, idx[t]]).(usefulBit := old(a[t, idx[t]]).usefulBit - 1)
    ensures forall t :: k <= t < idx.Length ==> a[t, idx[t]] == old(a[t, idx[t]])
    ensures forall t, c :: 0 <= t < a.Length0 && 0 <= c < a.Length1 && (t >= idx.Length || c != idx[t]) ==>
              a[t, c] == old(a[t, c])
  {
    var i := k;
    while i > 0
      invariant 0 <= i <= k
      invariant EntriesInRange(a, counterBits)
      invariant forall t :: 0 <= t < i ==> a[t, idx[t]] == old(a[t, idx[t]])
      invariant forall t :: i <= t < k ==> a[t, idx[t]] == old(a[t, idx[t]]).(usefulBit := old(a[t, idx[t]]).usefulBit - 1)
      invariant forall t :: k <= t < idx.Length ==> a[t, idx[t]] == old(a[t, idx[t]])
      invariant forall t, c :: 0 <= t < a.Length0 && 0 <= c < a.Length1 && (t >= idx.Length || c != idx[t]) ==>
                  a[t, c] == old(a[t, c])
    {
      i := i - 1;
      var e := a[i, idx[i]];
      a[i, idx[i]] := e.(usefulBit := e.usefulBit - 1);
    }
  }

  // ---------------------------------------------------------------------------
  // The predictor

  class TAGE {
    const numberOfTables: nat
    const tableLengthBits: nat
    const counterBits: nat
    const tagBits: nat
    const minimumHistoryLength: nat
    const maximumHistoryLength: nat
    const bimodalTableLengthBits: nat
    const pathHistoryLength: nat
    const usefulResetCounterBits: nat
    const newlyAllocatedEntriesTrustCounterBits: nat
    /** The history length of each tagged table, the longest first; fixed by the constructor. */
    const tableHistoryLength: seq<nat>
    /** `taggedTables[t, i]`: entry `i` of tagged table `t`. */
    const taggedTables: array2<TaggedEntry>
    const bimodalTable: array<BimodalEntry>
    /** The outcomes as bytes 0 and 1, the newest at position 0. */
    const globalHistory: array<Byte>
    const taggedTableHistoryHash: seq<HistoryRollingHash>
    /** Two hashes per table for the tag, the second one bit narrower. */
    const tagHistoryHash: seq<seq<HistoryRollingHash>>
    const taggedTableIndexes: array<int>
    /** Every rolling hash of the predictor. */
    ghost const hashes: set<HistoryRollingHash>

    var pathHistory: Word
    var usefulResetCounter: Word
    var newlyAllocatedEntriesTrustCounter: int
    var bimodalTableIndex: int
    var prediction: bool
    var alternativePrediction: bool
    var tableIndex: int
    var alternativeTableIndex: int
    var randomSeed: Word

    /** The configuration and the sizes of the arrays. */
    ghost predicate Shape() {
      Configuration(numberOfTables, tableLengthBits, counterBits, tagBits, minimumHistoryLength, maximumHistoryLength,
                    bimodalTableLengthBits, pathHistoryLength, usefulResetCounterBits, newlyAllocatedEntriesTrustCounterBits) &&
      |tableHistoryLength| == numberOfTables &&
      (forall t :: 0 <= t < numberOfTables ==> 1 <= tableHistoryLength[t] < maximumHistoryLength) &&
      taggedTables.Length0 == numberOfTables && taggedTables.Length1 == Pow2(tableLengthBits) &&
      bimodalTable.Length == Pow2(bimodalTableLengthBits) && globalHistory.Length == maximumHistoryLength &&
      |taggedTableHistoryHash| == numberOfTables &&
      |tagHistoryHash| == 2 && |tagHistoryHash[0]| == numberOfTables && |tagHistoryHash[1]| == numberOfTables &&
      taggedTableIndexes.Length == numberOfTables
    }

    /** Each hash has its table's history length and width, and its own slot. */
    ghost predicate Wired() {
      Shape() &&
      HashesWired(taggedTableHistoryHash, 0, tableHistoryLength, numberOfTables, tableLengthBits, tagBits, hashes) &&
      HashesWired(tagHistoryHash[0], 1, tableHistoryLength, numberOfTables, tableLengthBits, tagBits, hashes) &&
      HashesWired(tagHistoryHash[1], 2, tableHistoryLength, numberOfTables, tableLengthBits, tagBits, hashes)
    }

    /** Tagged counters in their signed range, useful counters in 0..3. */
    ghost predicate TablesValid()
      reads taggedTables
    {
      EntriesInRange(taggedTables, counterBits)
    }

    /** Bimodal prediction and hysteresis are bits. */
    ghost predicate BimodalValid()
      reads bimodalTable
    {
      BimodalInRange(bimodalTable)
    }

    ghost predicate IndexesValid()
      reads taggedTableIndexes
    {
      IndexesInRange(taggedTableIndexes, tableLengthBits)
    }

    /**
     * The bimodal index is in its table, the trust counter in its range, provider and
     * alternate are tables or `numberOfTables` for none; with no provider both
     * predictions are the same.
     */
    ghost predicate StateValid()
      reads this
    {
      0 <= bimodalTableIndex < Pow2(bimodalTableLengthBits) &&
      -(Pow2(newlyAllocatedEntriesTrustCounterBits) as int) <= newlyAllocatedEntriesTrustCounter < Pow2(newlyAllocatedEntriesTrustCounterBits) &&
      0 <= tableIndex <= numberOfTables && 0 <= alternativeTableIndex <= numberOfTables &&
      (tableIndex == numberOfTables ==> prediction == alternativePrediction)
    }

    ghost predicate Valid()
      reads this, taggedTables, bimodalTable, taggedTableIndexes
    {
      Shape() && Wired() && TablesValid() && BimodalValid() && IndexesValid() && StateValid()
    }

    /** The entry each tagged table's index selects. */
    function Candidates(): (c: seq<TaggedEntry>)
      reads taggedTables, taggedTableIndexes
      ensures |c| == taggedTableIndexes.Length
    {
      seq(taggedTableIndexes.Length, t reads taggedTables, taggedTableIndexes =>
        if 0 <= t < taggedTableIndexes.Length && t < taggedTables.Length0 && 0 <= taggedTableIndexes[t] < taggedTables.Length1
        then taggedTables[t, taggedTableIndexes[t]] else TaggedEntry(0, 0, 0))
    }

    /** `computeTaggedTableIndex`, given the current path history. */
    function ComputeTaggedTableIndex(address: Word, t: nat, pathHistory: Word): (index: int)
      reads taggedTableHistoryHash[t]
      requires Shape() && t < numberOfTables
      ensures 0 <= index < Pow2(tableLengthBits)
    {
      TaggedIndex(address, taggedTableHistoryHash[t].historyHash, pathHistory, tableHistoryLength[t], pathHistoryLength,
                  t, numberOfTables, tableLengthBits)
    }

    /** `computeTableTag`. */
    function ComputeTableTag(address: Word, t: nat): (tag: int)
      reads tagHistoryHash[0][t], tagHistoryHash[1][t]
      requires Shape() && t < numberOfTables
      ensures 0 <= ShortPattern(tag) < Pow2(TagWidth(t, numberOfTables, tagBits))
    {
      TagWidthsBounded(t, numberOfTables, tagBits);
      TableTag(address, tagHistoryHash[0][t].historyHash, tagHistoryHash[1][t].historyHash, TagWidth(t, numberOfTables, tagBits))
    }

    /** The index into every tagged table, given the current path history. */
    function TableIndexes(address: Word, pathHistory: Word): (s: seq<int>)
      reads hashes
      requires Wired()
      ensures |s| == numberOfTables
      ensures forall t :: 0 <= t < numberOfTables ==> 0 <= s[t] < Pow2(tableLengthBits)
    {
      seq(numberOfTables, t requires 0 <= t < numberOfTables reads hashes => ComputeTaggedTableIndex(address, t, pathHistory))
    }

    /** The tag of the branch for every tagged table. */
    function TableTags(address: Word): (s: seq<int>)
      reads hashes
      requires Wired()
      ensures |s| == numberOfTables
    {
      seq(numberOfTables, t requires 0 <= t < numberOfTables reads hashes => ComputeTableTag(address, t))
    }

    /** `predictUsingBimodal`. */
    predicate PredictUsingBimodal()
      reads this, bimodalTable
      requires 0 <= bimodalTableIndex < bimodalTable.Length
    {
      bimodalTable[bimodalTableIndex].prediction > 0
    }

    constructor (numberOfTables: nat, tableLengthBits: nat, counterBits: nat, tagBits: nat, minimumHistoryLength: nat,
                 maximumHistoryLength: nat, bimodalTableLengthBits: nat, pathHistoryLength: nat,
                 usefulResetCounterBits: nat, newlyAllocatedEntriesTrustCounterBits: nat, geometricLengths: seq<nat>)
      requires Configuration(numberOfTables, tableLengthBits, counterBits, tagBits, minimumHistoryLength, maximumHistoryLength,
                             bimodalTableLengthBits, pathHistoryLength, usefulResetCounterBits, newlyAllocatedEntriesTrustCounterBits)
      requires |geometricLengths| == numberOfTables - 2
      requires forall i :: 0 <= i < |geometricLengths| ==> 1 <= geometricLengths[i] < maximumHistoryLength
      ensures Valid() && |tableHistoryLength| == numberOfTables
      ensures tableHistoryLength[0] == maximumHistoryLength - 1
      ensures tableHistoryLength[numberOfTables - 1] ==
              if minimumHistoryLength >= maximumHistoryLength then maximumHistoryLength - 1 else minimumHistoryLength
      ensures tableHistoryLength[1..numberOfTables - 1] == geometricLengths
      ensures forall t, i :: 0 <= t < taggedTables.Length0 && 0 <= i < taggedTables.Length1 ==> taggedTables[t, i] == TaggedEntry(0, 0, 0)
      ensures forall i :: 0 <= i < bimodalTable.Length ==> bimodalTable[i] == BimodalEntry(1, 0)
      ensures forall t :: 0 <= t < numberOfTables ==>
                taggedTableHistoryHash[t].historyHash == 0 &&
                tagHistoryHash[0][t].historyHash == 0 && tagHistoryHash[1][t].historyHash == 0
      ensures pathHistory == 0 && usefulResetCounter == 0 && newlyAllocatedEntriesTrustCounter == 0 && randomSeed == 0
    {
      this.numberOfTables := numberOfTables;
      this.tableLengthBits := tableLengthBits;
      this.counterBits := counterBits;
      this.tagBits := tagBits;
      this.minimumHistoryLength := minimumHistoryLength;
      this.maximumHistoryLength := maximumHistoryLength;
      this.bimodalTableLengthBits := bimodalTableLengthBits;
      this.pathHistoryLength := pathHistoryLength;
      this.usefulResetCounterBits := usefulResetCounterBits;
      this.newlyAllocatedEntriesTrustCounterBits := newlyAllocatedEntriesTrustCounterBits;
      pathHistory := 0;
      usefulResetCounter := 0;
      newlyAllocatedEntriesTrustCounter := 0;
      bimodalTableIndex := 0;
      prediction := false;
      alternativePrediction := false;
      tableIndex := 0;
      alternativeTableIndex := 0;
      randomSeed := 0;
      var lengths := HistoryLengths(minimumHistoryLength, maximumHistoryLength, geometricLengths);
      tableHistoryLength := lengths;
      var tableHashes, tagHashes, members := NewPredictorHashes(lengths, numberOfTables, tableLengthBits, tagBits);
      taggedTableHistoryHash := tableHashes;
      tagHistoryHash := tagHashes;
      hashes := members;
      var history, indexes, bimodal, tagged := NewTables(maximumHistoryLength, numberOfTables, bimodalTableLengthBits, tableLengthBits, counterBits);
      globalHistory, taggedTableIndexes, bimodalTable, taggedTables := history, indexes, bimodal, tagged;
      new;
      assert Shape();
      assert Wired();
      assert TablesValid();
      assert BimodalValid() && IndexesValid() && StateValid();
    }

    // -------------------------------------------------------------------------
    // Prediction

    /** Computes the index into every tagged table. */
    method ComputeIndexes(address: Word)
      requires Valid()
      modifies taggedTableIndexes
      ensures Valid()
      ensures taggedTableIndexes[..] == old(TableIndexes(address, pathHistory))
    {
      var indexes := TableIndexes(address, pathHistory);
      StoreIndexes(taggedTableIndexes, indexes);
    }

    /** Searches the tables from `from` on for the first whose selected entry carries the branch's tag. */
    method FindHit(tags: seq<int>, from: nat) returns (t: nat)
      requires Valid() && |tags| == numberOfTables
      ensures t == FirstMatch(Candidates(), tags, from)
    {
      t := numberOfTables;
      var i := from;
      while i < numberOfTables
        invariant from <= i
        invariant FirstMatch(Candidates(), tags, i) == FirstMatch(Candidates(), tags, from)
        decreases numberOfTables - i
      {
        if taggedTables[i, taggedTableIndexes[i]].tag == tags[i] {
          t := i;
          break;
        }
        i := i + 1;
      }
    }

    /**
     * The outcome of looking a branch up with the tags `tags`: the provider is the first
     * table whose selected entry carries the branch's tag and the alternate the next such
     * table after it (`numberOfTables` for none). The alternate prediction comes from the
     * alternate table's counter, else from the bimodal table; the prediction is the
     * provider's counter unless the provider entry looks freshly allocated and the trust
     * counter `trust` is not negative.
     */
    ghost predicate LookupResult(tags: seq<int>, trust: int, bimodalIndex: int, provider: int, alternative: int,
                                 alternativeGuess: bool, guess: bool)
      reads taggedTables, taggedTableIndexes, bimodalTable
    {
      |tags| == numberOfTables == taggedTableIndexes.Length && 0 <= bimodalIndex < bimodalTable.Length &&
      LookupOutcome(Candidates(), tags, bimodalTable[bimodalIndex].prediction > 0, trust, provider, alternative, alternativeGuess, guess)
    }

    /** Looks the branch up in the tables as they stand. */
    method Lookup(tags: seq<int>, bimodalIndex: nat) returns (provider: nat, alternative: nat, alternativeGuess: bool, guess: bool)
      requires Valid() && |tags| == numberOfTables && bimodalIndex < bimodalTable.Length
      ensures LookupResult(tags, newlyAllocatedEntriesTrustCounter, bimodalIndex, provider, alternative, alternativeGuess, guess)
    {
      provider := FindHit(tags, 0);
      alternative := numberOfTables;
      if provider < numberOfTables {
        alternative := FindHit(tags, provider + 1);
      }
      var bimodalPrediction := bimodalTable[bimodalIndex].prediction > 0;
      if provider < numberOfTables {
        if alternative < numberOfTables {
          alternativeGuess := taggedTables[alternative, taggedTableIndexes[alternative]].counter >= 0;
        } else {
          alternativeGuess := bimodalPrediction;
        }
        var e := taggedTables[provider, taggedTableIndexes[provider]];
        if newlyAllocatedEntriesTrustCounter < 0 || Abs(2 * e.counter + 1) != 1 || e.usefulBit != 0 {
          guess := e.counter >= 0;
        } else {
          guess := alternativeGuess;
        }
      } else {
        alternativeGuess := bimodalPrediction;
        guess := alternativeGuess;
      }
    }

    /** Records the outcome of a lookup in the predictor's fields. */
    method SetLookup(bimodalIndex: int, provider: int, alternative: int, alternativeGuess: bool, guess: bool)
      requires Valid()
      requires 0 <= bimodalIndex < Pow2(bimodalTableLengthBits)
      requires 0 <= provider <= numberOfTables && 0 <= alternative <= numberOfTables
      requires provider == numberOfTables ==> guess == alternativeGuess
      modifies this
      ensures Valid()
      ensures bimodalTableIndex == bimodalIndex && tableIndex == provider && alternativeTableIndex == alternative
      ensures alternativePrediction == alternativeGuess && prediction == guess
      ensures newlyAllocatedEntriesTrustCounter == old(newlyAllocatedEntriesTrustCounter)
      ensures pathHistory == old(pathHistory) && usefulResetCounter == old(usefulResetCounter) && randomSeed == old(randomSeed)
    {
      bimodalTableIndex, tableIndex, alternativeTableIndex := bimodalIndex, provider, alternative;
      alternativePrediction, prediction := alternativeGuess, guess;
    }

    /** The part of `predictBranch` for a conditional branch: indexes, tags, lookup. */
    method PredictConditional(address: Word)
      requires Valid()
      modifies this, taggedTableIndexes
      ensures Valid()
      ensures taggedTableIndexes[..] == old(TableIndexes(address, pathHistory))
      ensures bimodalTableIndex == BimodalIndex(address, bimodalTableLengthBits)
      ensures LookupResult(old(TableTags(address)), newlyAllocatedEntriesTrustCounter, bimodalTableIndex,
                           tableIndex, alternativeTableIndex, alternativePrediction, prediction)
      ensures newlyAllocatedEntriesTrustCounter == old(newlyAllocatedEntriesTrustCounter)
      ensures pathHistory == old(pathHistory) && usefulResetCounter == old(usefulResetCounter) && randomSeed == old(randomSeed)
    {
      var tags := TableTags(address);
      ComputeIndexes(address);
      var bimodalIndex := BimodalIndex(address, bimodalTableLengthBits);
      var provider, alternative, alternativeGuess, guess := Lookup(tags, bimodalIndex);
      SetLookup(bimodalIndex, provider, alternative, alternativeGuess, guess);
    }

    /**
     * Conditional branches: the provider is the first table whose entry carries the tag
     * and the alternate the next one, else the bimodal table; a provider entry that looks
     * freshly allocated defers to the alternate while the trust counter is not negative.
     * Other branches are predicted taken.
     */
    method PredictBranch(info: BranchInfo) returns (p: bool)
      requires Valid()
      modifies this, taggedTableIndexes
      ensures Valid()
      ensures p == prediction
      ensures !IsConditional(info) ==>
                prediction && alternativePrediction && taggedTableIndexes[..] == old(taggedTableIndexes[..]) &&
                tableIndex == old(tableIndex) && bimodalTableIndex == old(bimodalTableIndex)
      ensures IsConditional(info) ==>
                taggedTableIndexes[..] == old(TableIndexes(FromBits(info.address), pathHistory)) &&
                bimodalTableIndex == BimodalIndex(FromBits(info.address), bimodalTableLengthBits) &&
                LookupResult(old(TableTags(FromBits(info.address))), newlyAllocatedEntriesTrustCounter, bimodalTableIndex,
                             tableIndex, alternativeTableIndex, alternativePrediction, prediction)
      ensures tableIndex == numberOfTables ==> prediction == alternativePrediction
      ensures newlyAllocatedEntriesTrustCounter == old(newlyAllocatedEntriesTrustCounter)
      ensures pathHistory == old(pathHistory) && usefulResetCounter == old(usefulResetCounter) && randomSeed == old(randomSeed)
    {
      if info.branchFlags & BR_CONDITIONAL != 0 {
        PredictConditional(FromBits(info.address));
      } else {
        prediction := true;
        alternativePrediction := true;
      }
      return prediction;
    }

    // -------------------------------------------------------------------------
    // Update

    /** `updateRandom`: steps the seed and returns it. */
    method UpdateRandom() returns (r: Word)
      requires Valid()
      modifies this
      ensures Valid() && LookupState() == old(LookupState())
      ensures r == randomSeed == NextRandom(old(randomSeed), numberOfTables)
      ensures pathHistory == old(pathHistory) && usefulResetCounter == old(usefulResetCounter)
      ensures newlyAllocatedEntriesTrustCounter == old(newlyAllocatedEntriesTrustCounter)
      ensures bimodalTableIndex == old(bimodalTableIndex) && prediction == old(prediction)
      ensures alternativePrediction == old(alternativePrediction) && tableIndex == old(tableIndex)
      ensures alternativeTableIndex == old(alternativeTableIndex)
    {
      randomSeed := NextRandom(randomSeed, numberOfTables);
      return randomSeed;
    }

    /** The least useful candidate among the tables with a longer history than the provider, at most 3. */
    method FindMinimumUsefulness() returns (minimumUsefulness: int)
      requires Valid() && tableIndex <= numberOfTables
      ensures minimumUsefulness == MinimumUsefulness(Candidates(), tableIndex)
      ensures Candidates() == old(Candidates())
    {
      minimumUsefulness := USEFUL_MAXIMUM;
      var i := 0;
      while i < tableIndex
        invariant 0 <= i <= tableIndex
        invariant minimumUsefulness == MinimumUsefulness(Candidates(), i)
      {
        if taggedTables[i, taggedTableIndexes[i]].usefulBit < minimumUsefulness {
          minimumUsefulness := taggedTables[i, taggedTableIndexes[i]].usefulBit;
        }
        i := i + 1;
      }
    }

    /** No candidate is free: every candidate with a longer history than the provider ages by one. */
    method AgeCandidates()
      requires Valid() && 0 < tableIndex <= numberOfTables
      requires MinimumUsefulness(Candidates(), tableIndex) > 0
      modifies taggedTables
      ensures Valid()
      ensures Candidates() == Aged(old(Candidates()), tableIndex)
      ensures forall t, i :: 0 <= t < taggedTables.Length0 && 0 <= i < taggedTables.Length1 && i != taggedTableIndexes[t] ==>
                taggedTables[t, i] == old(taggedTables[t, i])
    {
      ghost var before := Candidates();
      assert forall t :: 0 <= t < tableIndex ==> taggedTables[t, taggedTableIndexes[t]].usefulBit >= 1 by {
        forall t | 0 <= t < tableIndex
          ensures taggedTables[t, taggedTableIndexes[t]].usefulBit >= 1
        {
          assert before[t] == taggedTables[t, taggedTableIndexes[t]];
        }
      }
      AgeEntries(taggedTables, taggedTableIndexes, tableIndex, counterBits);
      assert forall t :: 0 <= t < numberOfTables ==> Candidates()[t] == Aged(before, tableIndex)[t];
    }

    /** The random start of the allocation search, counted down from the table above the provider. */
    method ChooseStartTable(randomNumber: Word) returns (startTable: int)
      requires Valid() && 0 < tableIndex
      ensures startTable == StartTable(randomNumber, tableIndex)
      ensures Candidates() == old(Candidates())
    {
      var bits := (tableIndex - 1) % 32;
      var randomBits: Word := AndMask(randomNumber, tableIndex - 1);
      startTable := tableIndex - 1;
      var remaining := bits;
      while randomBits % 2 != 0
        invariant 0 <= remaining <= bits && remaining <= startTable
        invariant randomBits < Pow2(remaining)
        invariant startTable - TrailingOnes(randomBits, 32 - (bits - remaining)) == StartTable(randomNumber, tableIndex)
        decreases remaining
      {
        assert remaining >= 1;
        Pow2BelowWord(remaining);
        assert Sar(randomBits, 1) == randomBits / 2;
        startTable := startTable - 1;
        randomBits := ShiftRight(randomBits, 1);
        remaining := remaining - 1;
      }
    }

    /** Allocates in the first table at or below `startTable` whose candidate is not useful, if there is one. */
    method AllocateFrom(tags: seq<int>, taken: bool, startTable: int)
      requires Valid() && 0 <= startTable < tableIndex <= numberOfTables && |tags| == numberOfTables
      modifies taggedTables
      ensures Valid()
      ensures AllocationTable(old(Candidates()), startTable, 0).None? ==> Candidates() == old(Candidates())
      ensures AllocationTable(old(Candidates()), startTable, 0).Some? ==>
                var j := AllocationTable(old(Candidates()), startTable, 0).value;
                Candidates() == old(Candidates())[j := NewEntry(taken, tags[j])]
      ensures forall t, i :: 0 <= t < taggedTables.Length0 && 0 <= i < taggedTables.Length1 && i != taggedTableIndexes[t] ==>
                taggedTables[t, i] == old(taggedTables[t, i])
    {
      ghost var before := Candidates();
      var i := startTable;
      while i >= 0
        invariant -1 <= i <= startTable
        invariant forall t :: i < t <= startTable ==> before[t].usefulBit != 0
        invariant AllocationTable(before, startTable, 0) == AllocationTable(before, i, 0)
        invariant unchanged(taggedTables)
        decreases i + 1
      {
        if taggedTables[i, taggedTableIndexes[i]].usefulBit == 0 {
          var counter := if taken then 0 else -1;
          taggedTables[i, taggedTableIndexes[i]] := TaggedEntry(counter, tags[i], 0);
          assert Candidates() == before[i := NewEntry(taken, tags[i])];
          return;
        }
        i := i - 1;
      }
      assert Candidates() == before;
    }

    /** The state a lookup leaves for the update, which the update itself does not change. */
    function LookupState(): (int, int, int, bool, bool)
      reads this
    {
      (bimodalTableIndex, tableIndex, alternativeTableIndex, prediction, alternativePrediction)
    }

    /** Whether the update of the last lookup allocates. */
    predicate ShouldAllocate(taken: bool)
      reads this, taggedTables, bimodalTable, taggedTableIndexes
      requires Valid()
    {
      AllocationDue(Candidates(), tableIndex, prediction, taken)
    }

    /** `updateBimodalPredictor`, at the bimodal index of the last lookup. */
    method UpdateBimodalPredictor(taken: bool)
      requires Valid()
      modifies bimodalTable
      ensures Valid()
      ensures bimodalTable[..] == BimodalStep(old(bimodalTable[..]), bimodalTableIndex, taken)
    {
      ghost var before := bimodalTable[..];
      var i := bimodalTableIndex;
      if taken == (bimodalTable[i].prediction > 0) {
        bimodalTable[i / 4] := bimodalTable[i / 4].(hysteresis := if taken then 1 else 0);
      } else {
        var inter := 2 * bimodalTable[i].prediction + bimodalTable[i / 4].hysteresis;
        if taken {
          if inter < 3 {
            inter := inter + 1;
          }
        } else {
          if inter > 0 {
            inter := inter - 1;
          }
        }
        bimodalTable[i] := bimodalTable[i].(prediction := inter / 2);
        bimodalTable[i / 4] := bimodalTable[i / 4].(hysteresis := inter % 2);
      }
      assert BimodalBits(before);
      BimodalStepCounter(before, i, taken);
      assert bimodalTable[..] == BimodalStep(before, i, taken);
    }

    /**
     * Trains the provider's counter toward the outcome, or the bimodal table when no table
     * hit, and moves the provider's useful counter when prediction and alternate differed.
     */
    method UpdateProvider(taken: bool)
      requires Valid()
      modifies taggedTables, bimodalTable
      ensures Valid()
      ensures tableIndex < numberOfTables ==>
                Candidates() == old(Candidates())[tableIndex := ProviderStep(old(Candidates())[tableIndex], taken, prediction,
                                                                              alternativePrediction, counterBits)] &&
                bimodalTable[..] == old(bimodalTable[..])
      ensures tableIndex == numberOfTables ==>
                Candidates() == old(Candidates()) && bimodalTable[..] == BimodalStep(old(bimodalTable[..]), bimodalTableIndex, taken)
      ensures forall t, i :: 0 <= t < taggedTables.Length0 && 0 <= i < taggedTables.Length1 && i != taggedTableIndexes[t] ==>
                taggedTables[t, i] == old(taggedTables[t, i])
    {
      if tableIndex < numberOfTables {
        ghost var before := Candidates();
        var e := taggedTables[tableIndex, taggedTableIndexes[tableIndex]];
        var counter := SaturatedCounterUpdate(e.counter, taken, counterBits);
        var usefulBit := e.usefulBit;
        if prediction != alternativePrediction {
          if prediction == taken {
            if usefulBit < USEFUL_MAXIMUM {
              usefulBit := usefulBit + 1;
            }
          } else {
            if usefulBit > 0 {
              usefulBit := usefulBit - 1;
            }
          }
        }
        ProviderStepInRange(e, taken, prediction, alternativePrediction, counterBits);
        taggedTables[tableIndex, taggedTableIndexes[tableIndex]] := e.(counter := counter, usefulBit := usefulBit);
        assert forall t :: 0 <= t < numberOfTables ==>
                 Candidates()[t] == before[tableIndex := ProviderStep(before[tableIndex], taken, prediction,
                                                                      alternativePrediction, counterBits)][t];
      } else {
        UpdateBimodalPredictor(taken);
      }
    }

    /** Performs a due allocation: ages the candidates when none is free, else allocates from the random start table. */
    method Allocate(tags: seq<int>, taken: bool, randomNumber: Word)
      requires Valid() && |tags| == numberOfTables && ShouldAllocate(taken)
      modifies taggedTables
      ensures Valid()
      ensures Candidates() == AllocationEffect(old(Candidates()), tableIndex, tags, taken, randomNumber)
      ensures forall t, i :: 0 <= t < taggedTables.Length0 && 0 <= i < taggedTables.Length1 && i != taggedTableIndexes[t] ==>
                taggedTables[t, i] == old(taggedTables[t, i])
    {
      var minimumUsefulness := FindMinimumUsefulness();
      if minimumUsefulness > 0 {
        AgeCandidates();
      } else {
        var startTable := ChooseStartTable(randomNumber);
        AllocateFrom(tags, taken, startTable);
      }
    }

    /** When the periodic reset is due at reset counter `counter`, clears one bit of every useful counter. */
    method PeriodicReset(counter: Word)
      requires Valid()
      modifies taggedTables
      ensures Valid()
      ensures forall t, i :: 0 <= t < taggedTables.Length0 && 0 <= i < taggedTables.Length1 ==>
                taggedTables[t, i] == MaybeReset(old(taggedTables[t, i]), UsefulResetMask(counter, usefulResetCounterBits))
    {
      if AndMask(counter, usefulResetCounterBits) == 0 {
        var resetBitMask := And(ShiftRight(counter, usefulResetCounterBits), 1);
        AndBelow(ShiftRight(counter, usefulResetCounterBits), 1);
        if resetBitMask == 0 {
          resetBitMask := 2;
        }
        ResetUsefulBits(taggedTables, resetBitMask, counterBits);
      }
    }

    /**
     * The table part of `update` for a conditional branch: the due allocation, the periodic
     * reset at reset counter `counter`, then the training of the provider or the bimodal table.
     */
    method UpdateTables(tags: seq<int>, taken: bool, randomNumber: Word, shouldAllocate: bool, counter: Word)
      requires Valid() && |tags| == numberOfTables && shouldAllocate == ShouldAllocate(taken)
      modifies taggedTables, bimodalTable
      ensures Valid()
      ensures Candidates() == CandidatesUpdated(old(Candidates()), tableIndex, prediction, alternativePrediction, taken, tags,
                                                randomNumber, UsefulResetMask(counter, usefulResetCounterBits), counterBits)
      ensures forall t, i :: 0 <= t < taggedTables.Length0 && 0 <= i < taggedTables.Length1 && i != taggedTableIndexes[t] ==>
                taggedTables[t, i] == MaybeReset(old(taggedTables[t, i]), UsefulResetMask(counter, usefulResetCounterBits))
      ensures tableIndex < numberOfTables ==> bimodalTable[..] == old(bimodalTable[..])
      ensures tableIndex == numberOfTables ==> bimodalTable[..] == BimodalStep(old(bimodalTable[..]), bimodalTableIndex, taken)
    {
      if shouldAllocate {
        Allocate(tags, taken, randomNumber);
      }
      ResetAndTrain(taken, counter);
    }

    /** The periodic reset of the useful counters, if due, then the training of the provider or the bimodal table. */
    method ResetAndTrain(taken: bool, counter: Word)
      requires Valid()
      modifies taggedTables, bimodalTable
      ensures Valid()
      ensures Candidates() == ResetAndTrained(old(Candidates()), UsefulResetMask(counter, usefulResetCounterBits),
                                             tableIndex, taken, prediction, alternativePrediction, counterBits)
      ensures forall t, i :: 0 <= t < taggedTables.Length0 && 0 <= i < taggedTables.Length1 && i != taggedTableIndexes[t] ==>
                taggedTables[t, i] == MaybeReset(old(taggedTables[t, i]), UsefulResetMask(counter, usefulResetCounterBits))
      ensures tableIndex < numberOfTables ==> bimodalTable[..] == old(bimodalTable[..])
      ensures tableIndex == numberOfTables ==> bimodalTable[..] == BimodalStep(old(bimodalTable[..]), bimodalTableIndex, taken)
    {
      ghost var before := Candidates();
      PeriodicReset(counter);
      ghost var mask := UsefulResetMask(counter, usefulResetCounterBits);
      assert Candidates() == ResetCandidates(before, mask) by {
        assert forall t :: 0 <= t < numberOfTables ==> Candidates()[t] == ResetCandidates(before, mask)[t];
      }
      UpdateProvider(taken);
    }

    /** Shifts `newest` into the global history and rolls every history hash over it. */
    method RollHistories(newest: Byte)
      requires Valid()
      modifies globalHistory, hashes
      ensures globalHistory[0] == newest
      ensures forall i :: 1 <= i < globalHistory.Length ==> globalHistory[i] == old(globalHistory[i - 1])
      ensures forall t :: 0 <= t < numberOfTables ==>
                taggedTableHistoryHash[t].historyHash ==
                  Rolled(taggedTableHistoryHash[t], old(taggedTableHistoryHash[t].historyHash), globalHistory[..]) &&
                tagHistoryHash[0][t].historyHash == Rolled(tagHistoryHash[0][t], old(tagHistoryHash[0][t].historyHash), globalHistory[..]) &&
                tagHistoryHash[1][t].historyHash == Rolled(tagHistoryHash[1][t], old(tagHistoryHash[1][t].historyHash), globalHistory[..])
    {
      TablesRollable();
      ShiftInNewest(globalHistory, newest);
      RollTables(taggedTableHistoryHash, tagHistoryHash[0], tagHistoryHash[1], globalHistory);
    }

    /** Every hash reads a history position inside the global history, is narrower than a word and is its own object. */
    lemma TablesRollable()
      requires Wired()
      ensures Rollable(taggedTableHistoryHash, globalHistory.Length) && Rollable(tagHistoryHash[0], globalHistory.Length) &&
              Rollable(tagHistoryHash[1], globalHistory.Length)
      ensures Separate(taggedTableHistoryHash, tagHistoryHash[0], tagHistoryHash[1])
    {
      forall t | 0 <= t < numberOfTables
        ensures HashWidth(1, t, numberOfTables, tableLengthBits, tagBits) < 32
      {
        TagWidthsBounded(t, numberOfTables, tagBits);
      }
    }

    /**
     * The part of `update` for a conditional branch: decides on the allocation and the new
     * trust counter, steps the reset counter, and updates the tables with the branch's tags.
     */
    method UpdateConditional(tags: seq<int>, taken: bool, randomNumber: Word)
      requires Valid() && |tags| == numberOfTables
      modifies this, taggedTables, bimodalTable
      ensures Valid()
      ensures LookupState() == old(LookupState())
      ensures pathHistory == old(pathHistory) && randomSeed == old(randomSeed)
      ensures usefulResetCounter == Wrap(old(usefulResetCounter) + 1)
      ensures Candidates() == CandidatesUpdated(old(Candidates()), tableIndex, prediction, alternativePrediction, taken, tags,
                                                randomNumber, UsefulResetMask(usefulResetCounter, usefulResetCounterBits), counterBits)
      ensures newlyAllocatedEntriesTrustCounter ==
                TrustStep(old(Candidates()), tableIndex, alternativePrediction, old(newlyAllocatedEntriesTrustCounter),
                          newlyAllocatedEntriesTrustCounterBits, taken)
      ensures forall t, i :: 0 <= t < taggedTables.Length0 && 0 <= i < taggedTables.Length1 && i != taggedTableIndexes[t] ==>
                taggedTables[t, i] == MaybeReset(old(taggedTables[t, i]), UsefulResetMask(usefulResetCounter, usefulResetCounterBits))
      ensures tableIndex < numberOfTables ==> bimodalTable[..] == old(bimodalTable[..])
      ensures tableIndex == numberOfTables ==> bimodalTable[..] == BimodalStep(old(bimodalTable[..]), bimodalTableIndex, taken)
    {
      var shouldAllocate := ShouldAllocate(taken);
      var trust := TrustStep(Candidates(), tableIndex, alternativePrediction, newlyAllocatedEntriesTrustCounter,
                             newlyAllocatedEntriesTrustCounterBits, taken);
      var counter := Wrap(usefulResetCounter + 1);
      UpdateTables(tags, taken, randomNumber, shouldAllocate, counter);
      newlyAllocatedEntriesTrustCounter := trust;
      usefulResetCounter := counter;
    }

    /** The history part of `update`: the newest outcome into the global history, the address bit into the path history. */
    method UpdateHistories(branch: Branch)
      requires Valid()
      modifies this, globalHistory, hashes
      ensures Valid()
      ensures LookupState() == old(LookupState())
      ensures randomSeed == old(randomSeed) && usefulResetCounter == old(usefulResetCounter)
      ensures newlyAllocatedEntriesTrustCounter == old(newlyAllocatedEntriesTrustCounter)
      ensures globalHistory[0] == NewestHistoryBit(branch.info, branch.taken)
      ensures forall i :: 1 <= i < globalHistory.Length ==> globalHistory[i] == old(globalHistory[i - 1])
      ensures pathHistory == NextPathHistory(old(pathHistory), FromBits(branch.info.address), pathHistoryLength)
      ensures forall t :: 0 <= t < numberOfTables ==>
                taggedTableHistoryHash[t].historyHash ==
                  Rolled(taggedTableHistoryHash[t], old(taggedTableHistoryHash[t].historyHash), globalHistory[..]) &&
                tagHistoryHash[0][t].historyHash == Rolled(tagHistoryHash[0][t], old(tagHistoryHash[0][t].historyHash), globalHistory[..]) &&
                tagHistoryHash[1][t].historyHash == Rolled(tagHistoryHash[1][t], old(tagHistoryHash[1][t].historyHash), globalHistory[..])
    {
      var newest: Byte := if branch.info.branchFlags & BR_CONDITIONAL == 0 || branch.taken then 1 else 0;
      RollHistories(newest);
      ShiftPathHistory(branch.info.address);
    }

    /** Shifts the address's low bit into the path history, kept to its length. */
    method ShiftPathHistory(address: bv32)
      requires Valid()
      modifies this
      ensures Valid()
      ensures pathHistory == NextPathHistory(old(pathHistory), FromBits(address), pathHistoryLength)
      ensures LookupState() == old(LookupState())
      ensures randomSeed == old(randomSeed) && usefulResetCounter == old(usefulResetCounter)
      ensures newlyAllocatedEntriesTrustCounter == old(newlyAllocatedEntriesTrustCounter)
    {
      pathHistory := AndMask(Wrap(ShiftLeft(pathHistory, 1) + FromBits(address) % 2), pathHistoryLength);
    }

    /**
     * `update`: steps the random seed; for a conditional branch trains the tables (trust
     * counter, allocation, periodic reset of the useful counters, provider or bimodal
     * counter); then shifts the outcome into the global history and the address's low bit
     * into the path history, and rolls every history hash.
     */
    method Update(branch: Branch)
      requires Valid()
      modifies this, taggedTables, bimodalTable, globalHistory, hashes
      ensures Valid()
      ensures LookupState() == old(LookupState())
      ensures randomSeed == NextRandom(old(randomSeed), numberOfTables)
      ensures IsConditional(branch.info) ==>
                usefulResetCounter == Wrap(old(usefulResetCounter) + 1) &&
                Candidates() == CandidatesUpdated(old(Candidates()), tableIndex, prediction, alternativePrediction, branch.taken,
                                                  old(TableTags(FromBits(branch.info.address))), randomSeed,
                                                  UsefulResetMask(usefulResetCounter, usefulResetCounterBits), counterBits) &&
                newlyAllocatedEntriesTrustCounter ==
                  TrustStep(old(Candidates()), tableIndex, alternativePrediction, old(newlyAllocatedEntriesTrustCounter),
                            newlyAllocatedEntriesTrustCounterBits, branch.taken)
      ensures IsConditional(branch.info) ==>
                forall t, i :: 0 <= t < taggedTables.Length0 && 0 <= i < taggedTables.Length1 && i != taggedTableIndexes[t] ==>
                  taggedTables[t, i] == MaybeReset(old(taggedTables[t, i]), UsefulResetMask(usefulResetCounter, usefulResetCounterBits))
      ensures IsConditional(branch.info) && tableIndex < numberOfTables ==> bimodalTable[..] == old(bimodalTable[..])
      ensures IsConditional(branch.info) && tableIndex == numberOfTables ==>
                bimodalTable[..] == BimodalStep(old(bimodalTable[..]), bimodalTableIndex, branch.taken)
      ensures !IsConditional(branch.info) ==>
                unchanged(taggedTables) && unchanged(bimodalTable) &&
                newlyAllocatedEntriesTrustCounter == old(newlyAllocatedEntriesTrustCounter) &&
                usefulResetCounter == old(usefulResetCounter)
      ensures globalHistory[0] == NewestHistoryBit(branch.info, branch.taken)
      ensures forall i :: 1 <= i < globalHistory.Length ==> globalHistory[i] == old(globalHistory[i - 1])
      ensures pathHistory == NextPathHistory(old(pathHistory), FromBits(branch.info.address), pathHistoryLength)
      ensures forall t :: 0 <= t < numberOfTables ==>
                taggedTableHistoryHash[t].historyHash ==
                  Rolled(taggedTableHistoryHash[t], old(taggedTableHistoryHash[t].historyHash), globalHistory[..]) &&
                tagHistoryHash[0][t].historyHash == Rolled(tagHistoryHash[0][t], old(tagHistoryHash[0][t].historyHash), globalHistory[..]) &&
                tagHistoryHash[1][t].historyHash == Rolled(tagHistoryHash[1][t], old(tagHistoryHash[1][t].historyHash), globalHistory[..])
    {
      var tags := TableTags(FromBits(branch.info.address));
      var randomNumber := UpdateRandom();
      if branch.info.branchFlags & BR_CONDITIONAL != 0 {
        UpdateConditional(tags, branch.taken, randomNumber);
      }
      ghost var candidates := Candidates();
      UpdateHistories(branch);
      assert Candidates() == candidates;
    }

    /**
     * `reset`: clears the random seed, the counters, the path and global histories and
     * every hash; the bimodal table predicts not taken with its hysteresis bits set and
     * every tagged entry is zero, as after construction.
     */
    method Reset()
      requires Valid()
      modifies this, taggedTables, bimodalTable, globalHistory, hashes
      ensures Valid()
      ensures LookupState() == old(LookupState())
      ensures randomSeed == 0 && usefulResetCounter == 0 && pathHistory == 0 && newlyAllocatedEntriesTrustCounter == 0
      ensures forall i :: 0 <= i < globalHistory.Length ==> globalHistory[i] == 0
      ensures forall t :: 0 <= t < numberOfTables ==>
                taggedTableHistoryHash[t].historyHash == 0 &&
                tagHistoryHash[0][t].historyHash == 0 && tagHistoryHash[1][t].historyHash == 0
      ensures forall i :: 0 <= i < bimodalTable.Length ==> bimodalTable[i] == BimodalEntry(1, 0)
      ensures forall t, i :: 0 <= t < taggedTables.Length0 && 0 <= i < taggedTables.Length1 ==> taggedTables[t, i] == TaggedEntry(0, 0, 0)
    {
      randomSeed := 0;
      usefulResetCounter := 0;
      pathHistory := 0;
      newlyAllocatedEntriesTrustCounter := 0;
      ResetHistories();
      ResetTables();
    }

    /** The table part of `reset`. */
    method ResetTables()
      requires Valid()
      modifies bimodalTable, taggedTables
      ensures Valid()
      ensures forall i :: 0 <= i < bimodalTable.Length ==> bimodalTable[i] == BimodalEntry(1, 0)
      ensures forall t, i :: 0 <= t < taggedTables.Length0 && 0 <= i < taggedTables.Length1 ==> taggedTables[t, i] == TaggedEntry(0, 0, 0)
    {
      FillBimodal(bimodalTable, BimodalEntry(1, 0));
      FillTagged(taggedTables, TaggedEntry(0, 0, 0));
    }

    /** The history part of `reset`. */
    method ResetHistories()
      requires Wired()
      modifies globalHistory, hashes
      ensures forall i :: 0 <= i < globalHistory.Length ==> globalHistory[i] == 0
      ensures forall t :: 0 <= t < numberOfTables ==>
                taggedTableHistoryHash[t].historyHash == 0 &&
                tagHistoryHash[0][t].historyHash == 0 && tagHistoryHash[1][t].historyHash == 0
    {
      TablesRollable();
      FillBytes(globalHistory, 0);
      ClearAll(taggedTableHistoryHash);
      ClearAll(tagHistoryHash[0]);
      ClearAll(tagHistoryHash[1]);
    }
  }
}
