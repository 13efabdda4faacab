/**
 * The optimised geometric history length predictor (O-GEHL): a set of tables of signed
 * counters, table `t` indexed by a hash of the branch address with the newest
 * `LengthForTable(t)` outcomes, the history lengths growing geometrically. The
 * prediction is the sign of the sum of the selected counters; the counters learn on a
 * misprediction or a weak sum, and the learning threshold adapts to how often each of
 * those happens.
 */
module OGEHLPredictor {
  import opened Bits
  import opened Branches
  import opened PerceptronLearning
  import opened Shifts

  const NUMBER_OF_TABLES_MINIMUM := 2
  const NUMBER_OF_TABLES_MAXIMUM := 20
  const TABLE_LENGTH_BITS_MINIMUM := 2
  const TABLE_LENGTH_BITS_MAXIMUM := 24
  const COUNTER_BITS_MINIMUM := 2
  const COUNTER_BITS_MAXIMUM := 16
  const HISTORY_LENGTH_MINIMUM := 1
  const HISTORY_LENGTH_MAXIMUM := 1048576
  const INITIAL_THRESHOLD_MINIMUM := 0
  const INITIAL_THRESHOLD_MAXIMUM := 1024
  const THRESHOLD_ADAPT_BITS_MINIMUM := 0
  const THRESHOLD_ADAPT_BITS_MAXIMUM := 16

  /** The history lengths of the first twelve tables. */
  const PREDEFINED_TABLE_LENGTHS: seq<nat> := [0, 2, 4, 9, 12, 18, 31, 54, 114, 145, 266, 301]

  // ---------------------------------------------------------------------------
  // History lengths

  /** The history length of table `t`: the predefined one for the first twelve, `1 << (t - 3)` after. */
  function LengthForTable(t: nat): nat
    requires t < NUMBER_OF_TABLES_MAXIMUM
  {
    if t <= 11 then PREDEFINED_TABLE_LENGTHS[t] else Pow2(t - 3)
  }

  /** The history lengths grow with the table index; table 0 sees the address alone. */
  lemma LengthsIncrease(t: nat, u: nat)
    requires t < u < NUMBER_OF_TABLES_MAXIMUM
    ensures LengthForTable(0) == 0
    ensures LengthForTable(t) < LengthForTable(u)
  {
    if u > 11 {
      Pow2Monotone(8, u - 3);
      assert Pow2(8) == 256;
      assert Pow2(9) == 512;
      if t > 11 {
        Pow2Monotone(t - 3 + 1, u - 3);
        assert Pow2(t - 3 + 1) == 2 * Pow2(t - 3);
      } else {
        Pow2Monotone(9, u - 3);
      }
    }
  }

  /** The history a table hashes: its own length, capped at the global history length. */
  function HistoryLengthFor(t: nat, globalLength: nat): (r: nat)
    requires t < NUMBER_OF_TABLES_MAXIMUM
    ensures r <= globalLength && r <= LengthForTable(t)
    ensures r == globalLength || r == LengthForTable(t)
  {
    if LengthForTable(t) > globalLength then globalLength else LengthForTable(t)
  }

  // ---------------------------------------------------------------------------
  // Hashing

  /** Every entry is a bit. */
  ghost predicate Binary(s: seq<int>) {
    forall i :: 0 <= i < |s| ==> 0 <= s[i] <= 1
  }

  /** `(address >> i) & 1`. */
  function AddressBit(address: bv32, i: nat): (b: int)
    requires i < 32
    ensures 0 <= b <= 1
  {
    ((address >> i) & 1) as int
  }

  /** The hash before any history: address bit `i` at position `n - i - 1`, so the lowest bit comes last. */
  function HashSeed(address: bv32, n: nat): (s: seq<int>)
    requires n <= 32
    ensures |s| == n && Binary(s)
  {
    seq(n, p requires 0 <= p < n => AddressBit(address, n - 1 - p))
  }

  /** The first `m` history bits XOR-ed into the seed, history position `h` onto seed position `h % |seed|`. */
  function Folded(seed: seq<int>, history: seq<int>, m: nat): (f: seq<int>)
    requires |seed| >= 1 && m <= |history| && Binary(seed) && Binary(history)
    ensures |f| == |seed| && Binary(f)
  {
    if m == 0 then seed
    else
      var f := Folded(seed, history, m - 1);
      var p := (m - 1) % |seed|;
      XorBelowPow2(f[p], history[m - 1], 1);
      f[p := Xor(f[p], history[m - 1])]
  }

  /** `t = (t << 1) + bits[i]` over the first `m` bits: the bits read as a number, the first one highest. */
  function Pack(bits: seq<int>, m: nat): int
    requires m <= |bits|
  {
    if m == 0 then 0 else 2 * Pack(bits, m - 1) + bits[m - 1]
  }

  /** The `n` bits of `x`, the highest first. */
  function Unpack(x: nat, n: nat): (bits: seq<int>)
    ensures |bits| == n
  {
    if n == 0 then [] else Unpack(x / 2, n - 1) + [x % 2]
  }

  /** `m` bits pack to a number below `2^m`. */
  lemma {:induction false} PackBelow(bits: seq<int>, m: nat)
    requires m <= |bits| && Binary(bits)
    ensures 0 <= Pack(bits, m) < Pow2(m)
  {
    if m > 0 {
      PackBelow(bits, m - 1);
    }
  }

  /** Unpacking a packed hash gives back its bits. */
  lemma {:induction false} UnpackPack(bits: seq<int>, m: nat)
    requires m <= |bits| && Binary(bits)
    ensures Pack(bits, m) >= 0 && Unpack(Pack(bits, m), m) == bits[..m]
  {
    PackBelow(bits, m);
    if m > 0 {
      UnpackPack(bits, m - 1);
      assert bits[..m] == bits[..m - 1] + [bits[m - 1]];
    }
  }

  /** Packing the bits of a number below `2^n` gives back the number. */
  lemma {:induction false} PackUnpack(x: nat, n: nat)
    requires x < Pow2(n)
    ensures Pack(Unpack(x, n), n) == x
  {
    if n > 0 {
      PackUnpack(x / 2, n - 1);
      var bits := Unpack(x, n);
      assert bits[..n - 1] == Unpack(x / 2, n - 1);
      PackPrefix(bits, Unpack(x / 2, n - 1), n - 1);
    }
  }

  /** Packing reads only the bits it packs. */
  lemma {:induction false} PackPrefix(a: seq<int>, b: seq<int>, m: nat)
    requires m <= |a| && m <= |b| && a[..m] == b[..m]
    ensures Pack(a, m) == Pack(b, m)
  {
    if m > 0 {
      assert a[m - 1] == a[..m][m - 1] && b[m - 1] == b[..m][m - 1];
      assert a[..m - 1] == a[..m][..m - 1] && b[..m - 1] == b[..m][..m - 1];
      PackPrefix(a, b, m - 1);
    }
  }

  /** The index table `t` reads: the seed folded with the table's share of the history, packed. */
  function TableHash(address: bv32, history: seq<int>, t: nat, tableLengthBits: nat): (h: int)
    requires t < NUMBER_OF_TABLES_MAXIMUM && 1 <= tableLengthBits <= 32 && Binary(history)
    ensures 0 <= h < Pow2(tableLengthBits)
  {
    var f := Folded(HashSeed(address, tableLengthBits), history, HistoryLengthFor(t, |history|));
    PackBelow(f, tableLengthBits);
    Pack(f, tableLengthBits)
  }

  // ---------------------------------------------------------------------------
  // Sum and learning

  /** The sum of the first `k` counters. */
  function SumTo(ws: seq<int>, k: nat): int
    requires k <= |ws|
  {
    if k == 0 then 0 else SumTo(ws, k - 1) + ws[k - 1]
  }

  /** The learning rule of this predictor: a misprediction, or a sum no stronger than the threshold. */
  predicate Trains(taken: bool, prediction: bool, sum: int, threshold: int) {
    taken != prediction || Abs(sum) <= threshold
  }

  /** Training every counter toward the outcome moves the sum toward it, strictly when any counter moved. */
  lemma {:induction false} TrainedSumToward(ws: seq<int>, trained: seq<int>, taken: bool, lo: int, hi: int, k: nat)
    requires k <= |ws| && k <= |trained|
    requires forall j :: 0 <= j < k ==> trained[j] == Train(ws[j], taken, lo, hi)
    ensures Toward(taken, SumTo(trained, k)) >= Toward(taken, SumTo(ws, k))
    ensures (exists j :: 0 <= j < k && trained[j] != ws[j]) ==>
              Toward(taken, SumTo(trained, k)) > Toward(taken, SumTo(ws, k))
  {
    if k > 0 {
      TrainedSumToward(ws, trained, taken, lo, hi, k - 1);
      if exists j :: 0 <= j < k && trained[j] != ws[j] {
        if trained[k - 1] == ws[k - 1] {
          var j :| 0 <= j < k && trained[j] != ws[j];
          assert j < k - 1;
        }
      }
    }
  }

  // ---------------------------------------------------------------------------
  // Threshold adaptation

  /** The learning threshold and the signed counter that decides when it moves. */
  datatype Adaptation = Adaptation(count: int, threshold: int)

  /**
   * The adaptation as written: a misprediction counts up and a weak correct prediction
   * counts down; the threshold moves only when the count lands exactly on its maximum or
   * minimum.
   */
  function AdaptAsWritten(a: Adaptation, mispredicted: bool, weak: bool, countMax: int, countMin: int): Adaptation {
    if mispredicted then
      if a.count + 1 == countMax then Adaptation(0, a.threshold + 1) else Adaptation(a.count + 1, a.threshold)
    else if weak then
      if a.count - 1 == countMin then Adaptation(0, a.threshold - 1) else Adaptation(a.count - 1, a.threshold)
    else a
  }

  /**
   * The adaptation the counter is meant to perform: the threshold moves whenever the count
   * reaches its maximum or minimum, which then starts again from 0.
   */
  function Adapt(a: Adaptation, mispredicted: bool, weak: bool, countMax: int, countMin: int): (r: Adaptation)
    requires countMin < 0 <= countMax && countMin <= a.count <= countMax
    ensures countMin <= r.count <= countMax
    ensures r.threshold == a.threshold + 1 <==> mispredicted && a.count + 1 >= countMax
    ensures r.threshold == a.threshold - 1 <==> !mispredicted && weak && a.count - 1 <= countMin
    ensures r.threshold != a.threshold ==> r.count == 0
    ensures !mispredicted && !weak ==> r == a
  {
    if mispredicted then
      if a.count + 1 >= countMax then Adaptation(0, a.threshold + 1) else Adaptation(a.count + 1, a.threshold)
    else if weak then
      if a.count - 1 <= countMin then Adaptation(0, a.threshold - 1) else Adaptation(a.count - 1, a.threshold)
    else a
  }

  /** With at least two adapt bits the count stays strictly inside its range, and there the two agree. */
  lemma AdaptAgrees(a: Adaptation, mispredicted: bool, weak: bool, countMax: int, countMin: int)
    requires countMin < 0 < countMax && countMin < a.count < countMax
    ensures AdaptAsWritten(a, mispredicted, weak, countMax, countMin) == Adapt(a, mispredicted, weak, countMax, countMin)
    ensures countMin < Adapt(a, mispredicted, weak, countMax, countMin).count < countMax
  {
  }

  /**
   * With one adapt bit (`countMax == 0`, `countMin == -1`) the count as written starts at
   * its maximum and a misprediction takes it past it: from then on the threshold can only
   * fall. Corrected, every misprediction raises it.
   */
  lemma OneAdaptBitNeverRaises(a: Adaptation, mispredicted: bool, weak: bool)
    requires a.count >= 0
    ensures AdaptAsWritten(a, mispredicted, weak, 0, -1).count >= 0
    ensures AdaptAsWritten(a, mispredicted, weak, 0, -1).threshold <= a.threshold
    ensures AdaptAsWritten(Adaptation(0, a.threshold), true, weak, 0, -1) == Adaptation(1, a.threshold)
    ensures a.count == 0 ==> Adapt(a, true, weak, 0, -1) == Adaptation(0, a.threshold + 1)
  {
  }

  // ---------------------------------------------------------------------------
  // The predictor

  class OGEHL {
    const numberOfTables: nat
    const tableLength: nat
    const tableLengthBits: nat
    const counterBits: nat
    const counterMax: int
    const counterMin: int
    const adaptThreshold: bool
    ghost const thresholdAdaptBits: nat
    const thresholdAdaptCountMax: int
    const thresholdAdaptCountMin: int
    const initialThreshold: int
    const globalHistoryLength: nat
    /** `weights[t, i]`: counter `i` of table `t`. */
    const weights: array2<int>
    /** The index each table read for the last prediction. */
    const tableHash: array<int>
    /** The outcomes as 0 and 1, the newest at position 0. */
    const globalHistory: array<int>
    const intermediateHash: array<int>
    const branchAddressBits: array<int>
    var thresholdAdaptCount: int
    var threshold: int
    var sum: int
    var prediction: bool

    /** The configuration, the sizes of the arrays and which arrays are distinct. */
    ghost predicate Shape() {
      NUMBER_OF_TABLES_MINIMUM <= numberOfTables <= NUMBER_OF_TABLES_MAXIMUM &&
      TABLE_LENGTH_BITS_MINIMUM <= tableLengthBits <= TABLE_LENGTH_BITS_MAXIMUM &&
      COUNTER_BITS_MINIMUM <= counterBits <= COUNTER_BITS_MAXIMUM &&
      HISTORY_LENGTH_MINIMUM <= globalHistoryLength <= HISTORY_LENGTH_MAXIMUM &&
      INITIAL_THRESHOLD_MINIMUM <= initialThreshold <= INITIAL_THRESHOLD_MAXIMUM &&
      THRESHOLD_ADAPT_BITS_MINIMUM <= thresholdAdaptBits <= THRESHOLD_ADAPT_BITS_MAXIMUM &&
      tableLength == Pow2(tableLengthBits) &&
      counterMax == Pow2(counterBits - 1) - 1 && counterMin == -counterMax - 1 &&
      adaptThreshold == (thresholdAdaptBits != 0) &&
      (adaptThreshold ==> thresholdAdaptCountMax == Pow2(thresholdAdaptBits - 1) - 1 &&
                          thresholdAdaptCountMin == -thresholdAdaptCountMax - 1) &&
      weights.Length0 == numberOfTables && weights.Length1 == tableLength &&
      tableHash.Length == numberOfTables && globalHistory.Length == globalHistoryLength &&
      intermediateHash.Length == tableLengthBits && branchAddressBits.Length == 32 &&
      tableHash != globalHistory && tableHash != intermediateHash && tableHash != branchAddressBits &&
      globalHistory != intermediateHash && globalHistory != branchAddressBits && intermediateHash != branchAddressBits
    }

    /**
     * The counters stay in `[counterMin, counterMax]`, the history holds bits, every table
     * index is inside its table and the adapt count inside its range.
     */
    ghost predicate Valid()
      reads this, weights, tableHash, globalHistory
    {
      Shape() && CountersInRange() && Binary(globalHistory[..]) && HashesInRange() &&
      (adaptThreshold ==> thresholdAdaptCountMin <= thresholdAdaptCount <= thresholdAdaptCountMax)
    }

    ghost predicate CountersInRange()
      reads weights
    {
      forall t, i :: 0 <= t < weights.Length0 && 0 <= i < weights.Length1 ==> counterMin <= weights[t, i] <= counterMax
    }

    ghost predicate HashesInRange()
      reads tableHash
    {
      forall t :: 0 <= t < tableHash.Length ==> 0 <= tableHash[t] < tableLength
    }

    /** The counter each table's index selects. */
    function Selected(hashes: seq<int>): (ws: seq<int>)
      reads weights
      ensures |ws| == |hashes|
    {
      seq(|hashes|, t reads weights =>
        if 0 <= t < |hashes| && t < weights.Length0 && 0 <= hashes[t] < weights.Length1 then weights[t, hashes[t]] else 0)
    }

    constructor (numberOfTables: nat, tableLengthBits: nat, counterBits: nat, historyLength: nat,
                 initialThreshold: int, thresholdAdaptBits: nat)
      requires NUMBER_OF_TABLES_MINIMUM <= numberOfTables <= NUMBER_OF_TABLES_MAXIMUM
      requires TABLE_LENGTH_BITS_MINIMUM <= tableLengthBits <= TABLE_LENGTH_BITS_MAXIMUM
      requires COUNTER_BITS_MINIMUM <= counterBits <= COUNTER_BITS_MAXIMUM
      requires HISTORY_LENGTH_MINIMUM <= historyLength <= HISTORY_LENGTH_MAXIMUM
      requires INITIAL_THRESHOLD_MINIMUM <= initialThreshold <= INITIAL_THRESHOLD_MAXIMUM
      requires THRESHOLD_ADAPT_BITS_MINIMUM <= thresholdAdaptBits <= THRESHOLD_ADAPT_BITS_MAXIMUM
      ensures Valid()
      ensures this.numberOfTables == numberOfTables && this.tableLengthBits == tableLengthBits
      ensures this.counterBits == counterBits && globalHistoryLength == historyLength
      ensures this.initialThreshold == initialThreshold && this.thresholdAdaptBits == thresholdAdaptBits
      ensures threshold == initialThreshold && thresholdAdaptCount == 0
      ensures adaptThreshold <==> thresholdAdaptBits != 0
      ensures forall t, i :: 0 <= t < weights.Length0 && 0 <= i < weights.Length1 ==> weights[t, i] == 0
      ensures forall i :: 0 <= i < globalHistory.Length ==> globalHistory[i] == 0
    {
      this.numberOfTables := numberOfTables;
      this.tableLengthBits := tableLengthBits;
      tableLength := Pow2(tableLengthBits);
      this.counterBits := counterBits;
      counterMax := Pow2(counterBits - 1) - 1;
      counterMin := -(Pow2(counterBits - 1) - 1) - 1;
      weights := new int[numberOfTables, Pow2(tableLengthBits)]((_, _) => 0);
      tableHash := new int[numberOfTables](_ => 0);
      globalHistoryLength := historyLength;
      globalHistory := new int[historyLength](_ => 0);
      intermediateHash := new int[tableLengthBits](_ => 0);
      branchAddressBits := new int[32](_ => 0);
      this.initialThreshold := initialThreshold;
      threshold := initialThreshold;
      thresholdAdaptCount := 0;
      this.thresholdAdaptBits := thresholdAdaptBits;
      if thresholdAdaptBits != 0 {
        thresholdAdaptCountMax := Pow2(thresholdAdaptBits - 1) - 1;
        thresholdAdaptCountMin := -(Pow2(thresholdAdaptBits - 1) - 1) - 1;
        adaptThreshold := true;
      } else {
        thresholdAdaptCountMax := 0;
        thresholdAdaptCountMin := 0;
        adaptThreshold := false;
      }
    }

    /** Spreads the low `tableLengthBits` bits of the address over `branchAddressBits`, bit `i` at position `i`. */
    method ConvertBranchAddressToBits(address: bv32)
      requires Shape()
      modifies branchAddressBits
      ensures forall i :: 0 <= i < tableLengthBits ==> branchAddressBits[i] == AddressBit(address, i)
    {
      var i := 0;
      while i < tableLengthBits
        invariant 0 <= i <= tableLengthBits
        invariant forall j :: 0 <= j < i ==> branchAddressBits[j] == AddressBit(address, j)
      {
        branchAddressBits[i] := AddressBit(address, i);
        i := i + 1;
      }
    }

    /** Fills the intermediate hash with the address bits, the lowest last. */
    method SeedHash(ghost address: bv32)
      requires Shape()
      requires forall i :: 0 <= i < tableLengthBits ==> branchAddressBits[i] == AddressBit(address, i)
      modifies intermediateHash
      ensures intermediateHash[..] == HashSeed(address, tableLengthBits)
    {
      var i := 0;
      while i < tableLengthBits
        invariant 0 <= i <= tableLengthBits
        invariant forall p :: tableLengthBits - i <= p < tableLengthBits ==>
                    intermediateHash[p] == AddressBit(address, tableLengthBits - 1 - p)
      {
        intermediateHash[tableLengthBits - i - 1] := branchAddressBits[i];
        i := i + 1;
      }
    }

    /** XORs the newest `length` history bits into the intermediate hash, bit `h` onto position `h % tableLengthBits`. */
    method FoldHistory(length: nat)
      requires Shape() && Binary(intermediateHash[..]) && Binary(globalHistory[..]) && length <= globalHistoryLength
      modifies intermediateHash
      ensures intermediateHash[..] == Folded(old(intermediateHash[..]), globalHistory[..], length)
    {
      ghost var seed := intermediateHash[..];
      var historyIndex := 0;
      while historyIndex < length
        invariant 0 <= historyIndex <= length
        invariant intermediateHash[..] == Folded(seed, globalHistory[..], historyIndex)
      {
        var p := historyIndex % tableLengthBits;
        XorBelowPow2(intermediateHash[p], globalHistory[historyIndex], 1);
        intermediateHash[p] := Xor(intermediateHash[p], globalHistory[historyIndex]);
        historyIndex := historyIndex + 1;
      }
    }

    /** Reads the intermediate hash as a number, its first bit highest. */
    method PackHash() returns (hash: int)
      requires Shape() && Binary(intermediateHash[..])
      ensures hash == Pack(intermediateHash[..], tableLengthBits)
      ensures 0 <= hash < tableLength
    {
      hash := 0;
      var i := 0;
      while i < tableLengthBits
        invariant 0 <= i <= tableLengthBits
        invariant hash == Pack(intermediateHash[..], i)
      {
        hash := hash * 2 + intermediateHash[i];
        i := i + 1;
      }
      PackBelow(intermediateHash[..], tableLengthBits);
    }

    /** Computes the index table `t` reads for the branch and records it in `tableHash`. */
    method ComputeTableHash(ghost address: bv32, t: nat)
      requires Valid() && t < numberOfTables
      requires forall i :: 0 <= i < tableLengthBits ==> branchAddressBits[i] == AddressBit(address, i)
      modifies intermediateHash, tableHash
      ensures Valid()
      ensures tableHash[t] == TableHash(address, globalHistory[..], t, tableLengthBits)
      ensures forall u :: 0 <= u < tableHash.Length && u != t ==> tableHash[u] == old(tableHash[u])
    {
      SeedHash(address);
      var historyLengthForTable := LengthForTable(t);
      if historyLengthForTable > globalHistoryLength {
        historyLengthForTable := globalHistoryLength;
      }
      FoldHistory(historyLengthForTable);
      var hash := PackHash();
      tableHash[t] := hash;
    }

    /** Computes every table's index for the branch and sums the counters they select. */
    method ComputeSum(address: bv32) returns (total: int)
      requires Valid()
      modifies branchAddressBits, intermediateHash, tableHash
      ensures Valid()
      ensures forall t :: 0 <= t < numberOfTables ==> tableHash[t] == TableHash(address, globalHistory[..], t, tableLengthBits)
      ensures total == SumTo(Selected(tableHash[..]), numberOfTables)
    {
      ConvertBranchAddressToBits(address);
      ghost var history := globalHistory[..];
      total := 0;
      var tableIndex := 0;
      while tableIndex < numberOfTables
        invariant 0 <= tableIndex <= numberOfTables
        invariant Valid() && globalHistory[..] == history
        invariant forall i :: 0 <= i < tableLengthBits ==> branchAddressBits[i] == AddressBit(address, i)
        invariant forall t :: 0 <= t < tableIndex ==> tableHash[t] == TableHash(address, history, t, tableLengthBits)
        invariant total == SumTo(Selected(tableHash[..]), tableIndex)
      {
        total := AddTable(address, tableIndex, total);
        tableIndex := tableIndex + 1;
      }
    }

    /** One round of the sum: computes table `t`'s index and adds the counter it selects. */
    method AddTable(ghost address: bv32, t: nat, total: int) returns (next: int)
      requires Valid() && t < numberOfTables
      requires forall i :: 0 <= i < tableLengthBits ==> branchAddressBits[i] == AddressBit(address, i)
      requires forall u :: 0 <= u < t ==> tableHash[u] == TableHash(address, globalHistory[..], u, tableLengthBits)
      requires total == SumTo(Selected(tableHash[..]), t)
      modifies intermediateHash, tableHash
      ensures Valid()
      ensures forall u :: 0 <= u <= t ==> tableHash[u] == TableHash(address, globalHistory[..], u, tableLengthBits)
      ensures next == SumTo(Selected(tableHash[..]), t + 1)
    {
      ghost var before := Selected(tableHash[..]);
      ComputeTableHash(address, t);
      PrefixSum(before, Selected(tableHash[..]), t);
      next := total + weights[t, tableHash[t]];
    }

    /** Predicts taken when the selected counters sum to 0 or more. */
    method PredictBranch(info: BranchInfo) returns (p: bool)
      requires Valid()
      modifies this, branchAddressBits, intermediateHash, tableHash
      ensures Valid()
      ensures forall t :: 0 <= t < numberOfTables ==> tableHash[t] == TableHash(info.address, globalHistory[..], t, tableLengthBits)
      ensures sum == SumTo(Selected(tableHash[..]), numberOfTables)
      ensures p == prediction == (sum >= 0)
      ensures threshold == old(threshold) && thresholdAdaptCount == old(thresholdAdaptCount)
    {
      sum := ComputeSum(info.address);
      prediction := sum >= 0;
      return prediction;
    }

    /** Trains the counter each table selected toward the outcome. */
    method Learn(taken: bool)
      requires Valid()
      modifies weights
      ensures Valid()
      ensures forall t :: 0 <= t < numberOfTables ==>
                weights[t, tableHash[t]] == Train(old(weights[t, tableHash[t]]), taken, counterMin, counterMax)
      ensures forall t, i :: 0 <= t < weights.Length0 && 0 <= i < weights.Length1 && i != tableHash[t] ==>
                weights[t, i] == old(weights[t, i])
      ensures Toward(taken, SumTo(Selected(tableHash[..]), numberOfTables)) >=
              Toward(taken, SumTo(old(Selected(tableHash[..])), numberOfTables))
    {
      ghost var before := Selected(tableHash[..]);
      var i := 0;
      while i < numberOfTables
        invariant 0 <= i <= numberOfTables
        invariant Valid()
        invariant forall t :: 0 <= t < i ==>
                    weights[t, tableHash[t]] == Train(old(weights[t, tableHash[t]]), taken, counterMin, counterMax)
        invariant forall t, c :: 0 <= t < weights.Length0 && 0 <= c < weights.Length1 && (i <= t || c != tableHash[t]) ==>
                    weights[t, c] == old(weights[t, c])
      {
        TrainInRange(weights[i, tableHash[i]], taken, counterMin, counterMax);
        if taken {
          if weights[i, tableHash[i]] < counterMax {
            weights[i, tableHash[i]] := weights[i, tableHash[i]] + 1;
          }
        } else {
          if weights[i, tableHash[i]] > counterMin {
            weights[i, tableHash[i]] := weights[i, tableHash[i]] - 1;
          }
        }
        i := i + 1;
      }
      TrainedSumToward(before, Selected(tableHash[..]), taken, counterMin, counterMax, numberOfTables);
    }

    /** Moves the threshold adaptation by one outcome, when adaptation is on (see `Adapt`). */
    method AdaptThreshold(taken: bool)
      requires Valid()
      modifies this
      ensures Valid()
      ensures adaptThreshold ==>
                Adaptation(thresholdAdaptCount, threshold) ==
                Adapt(old(Adaptation(thresholdAdaptCount, threshold)), taken != prediction, Abs(sum) <= old(threshold),
                      thresholdAdaptCountMax, thresholdAdaptCountMin)
      ensures !adaptThreshold ==> threshold == old(threshold) && thresholdAdaptCount == old(thresholdAdaptCount)
      ensures sum == old(sum) && prediction == old(prediction)
    {
      if adaptThreshold {
        if taken != prediction {
          thresholdAdaptCount := thresholdAdaptCount + 1;
          if thresholdAdaptCount >= thresholdAdaptCountMax {
            thresholdAdaptCount := 0;
            threshold := threshold + 1;
          }
        } else {
          if Abs(sum) <= threshold {
            thresholdAdaptCount := thresholdAdaptCount - 1;
            if thresholdAdaptCount <= thresholdAdaptCountMin {
              thresholdAdaptCount := 0;
              threshold := threshold - 1;
            }
          }
        }
      }
    }

    /** Shifts the outcome, as 0 or 1, into the newest history position. */
    method ShiftHistory(taken: bool)
      requires Valid()
      modifies globalHistory
      ensures Valid()
      ensures globalHistory[..] == [if taken then 1 else 0] + old(globalHistory[..])[..globalHistoryLength - 1]
    {
      ShiftIntoFirst(globalHistory, if taken then 1 else 0);
      assert forall i :: 0 <= i < globalHistory.Length ==> globalHistory[i] == globalHistory[..][i];
    }

    /**
     * Trains the selected counters on a misprediction or a sum no stronger than the
     * threshold, adapts the threshold and shifts the outcome into the history.
     */
    method Update(branch: Branch)
      requires Valid()
      modifies this, weights, globalHistory
      ensures Valid()
      ensures Trains(branch.taken, prediction, sum, old(threshold)) ==>
                (forall t :: 0 <= t < numberOfTables ==>
                   weights[t, tableHash[t]] == Train(old(weights[t, tableHash[t]]), branch.taken, counterMin, counterMax)) &&
                Toward(branch.taken, SumTo(Selected(tableHash[..]), numberOfTables)) >=
                Toward(branch.taken, SumTo(old(Selected(tableHash[..])), numberOfTables))
      ensures forall t, i :: 0 <= t < weights.Length0 && 0 <= i < weights.Length1 && i != tableHash[t] ==>
                weights[t, i] == old(weights[t, i])
      ensures !Trains(branch.taken, prediction, sum, old(threshold)) ==> unchanged(weights)
      ensures adaptThreshold ==>
                Adaptation(thresholdAdaptCount, threshold) ==
                Adapt(old(Adaptation(thresholdAdaptCount, threshold)), branch.taken != prediction, Abs(sum) <= old(threshold),
                      thresholdAdaptCountMax, thresholdAdaptCountMin)
      ensures !adaptThreshold ==> threshold == old(threshold) && thresholdAdaptCount == old(thresholdAdaptCount)
      ensures globalHistory[..] == [if branch.taken then 1 else 0] + old(globalHistory[..])[..globalHistoryLength - 1]
      ensures sum == old(sum) && prediction == old(prediction)
    {
      if branch.taken != prediction || Abs(sum) <= threshold {
        Learn(branch.taken);
      }
      AdaptThreshold(branch.taken);
      ShiftHistory(branch.taken);
    }

    /** Zeroes the counters. */
    method ResetWeights()
      requires Valid()
      modifies weights
      ensures Valid()
      ensures forall t, i :: 0 <= t < weights.Length0 && 0 <= i < weights.Length1 ==> weights[t, i] == 0
    {
      var i := 0;
      while i < numberOfTables
        invariant 0 <= i <= numberOfTables
        invariant Valid()
        invariant forall t, c :: 0 <= t < i && 0 <= c < weights.Length1 ==> weights[t, c] == 0
      {
        var j := 0;
        while j < tableLength
          invariant 0 <= j <= tableLength
          invariant Valid()
          invariant forall t, c :: 0 <= t < i && 0 <= c < weights.Length1 ==> weights[t, c] == 0
          invariant forall c :: 0 <= c < j ==> weights[i, c] == 0
        {
          weights[i, j] := 0;
          j := j + 1;
        }
        i := i + 1;
      }
    }

    /** Zeroes the history. */
    method ResetHistory()
      requires Valid()
      modifies globalHistory
      ensures Valid()
      ensures forall i :: 0 <= i < globalHistory.Length ==> globalHistory[i] == 0
    {
      var i := 0;
      while i < globalHistoryLength
        invariant 0 <= i <= globalHistoryLength
        invariant Valid()
        invariant forall j :: 0 <= j < i ==> globalHistory[j] == 0
      {
        globalHistory[i] := 0;
        i := i + 1;
      }
    }

    /** Zeroes the counters and the history and restores the initial threshold. */
    method Reset()
      requires Valid()
      modifies this, weights, globalHistory
      ensures Valid()
      ensures forall t, i :: 0 <= t < weights.Length0 && 0 <= i < weights.Length1 ==> weights[t, i] == 0
      ensures forall i :: 0 <= i < globalHistory.Length ==> globalHistory[i] == 0
      ensures thresholdAdaptCount == 0 && threshold == initialThreshold
    {
      ResetWeights();
      ResetHistory();
      thresholdAdaptCount := 0;
      threshold := initialThreshold;
    }
  }

  /** A sum over a prefix depends on the prefix only. */
  lemma {:induction false} PrefixSum(a: seq<int>, b: seq<int>, k: nat)
    requires k <= |a| && k <= |b|
    requires forall j :: 0 <= j < k ==> a[j] == b[j]
    ensures SumTo(a, k) == SumTo(b, k)
  {
    if k > 0 {
      PrefixSum(a, b, k - 1);
    }
  }
}
