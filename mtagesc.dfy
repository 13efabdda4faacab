/**
 * The self-contained helpers of the MTAGE-SC predictor (multi-TAGE plus a statistical
 * corrector): saturating counters, the path history ring buffer and its rolling hashes,
 * the frequency bins, the COLT combiner entries, the ageing and allocation of tagged
 * table entries, and the wrapper whose predictor is only built by `reset`.
 *
 * C# `sbyte`/`short` values are integers in their ranges (`SByte` wraps an unchecked
 * `++`/`--`); `int`/`uint` values that go through shifts and bit operators are
 * `Word` patterns, as in the Words module.
 */
module MTAGESC {
  import opened Bits
  import opened Branches
  import opened Words
  import opened Wrappers

  const NUMBER_OF_TAGE_PREDICTORS := 6
  const COLT_BITS := 5
  const HIST_BUFFER_LENGTH := 0x4_0000

  // ---------------------------------------------------------------------------
  // Saturating counters held in an `sbyte`.

  predicate IsSByte(x: int) {
    -128 <= x < 128
  }

  /** An unchecked conversion to `sbyte`: the value modulo 256, in [-128, 128). */
  function SByte(x: int): (r: int)
    ensures IsSByte(r)
    ensures IsSByte(x) ==> r == x
  {
    (x + 128) % 256 - 128
  }

  /** `-(1 << (n - 1))`. */
  function CounterMin(n: int): int
    requires 1 <= n <= 32
  {
    -(Pow2(n - 1) as int)
  }

  /** `-counterMin - 1`. */
  function CounterMax(n: int): int
    requires 1 <= n <= 32
  {
    Pow2(n - 1) - 1
  }

  predicate InRange(counter: int, n: int)
    requires 1 <= n <= 32
  {
    CounterMin(n) <= counter <= CounterMax(n)
  }

  predicate Saturated(counter: int, n: int)
    requires 1 <= n <= 32
  {
    counter == CounterMax(n) || counter == CounterMin(n)
  }

  /**
   * The counter after one update: one step toward the outcome unless it already sits
   * at the bound on that side. The step is an `sbyte` `++`/`--`, which wraps only for
   * widths above 8.
   */
  function Stepped(counter: int, increment: bool, n: int): int
    requires 1 <= n <= 32
  {
    if increment then
      (if counter < CounterMax(n) then SByte(counter + 1) else counter)
    else
      (if counter > CounterMin(n) then SByte(counter - 1) else counter)
  }

  /** `saturatedCounterUpdate(ref counter, increment, numberOfBits)`. */
  method SaturatedCounterUpdate(counter: int, increment: bool, numberOfBits: int) returns (updated: int)
    requires IsSByte(counter) && 1 <= numberOfBits <= 32
    ensures IsSByte(updated)
    ensures updated == Stepped(counter, increment, numberOfBits)
  {
    var counterMin: int := -(Pow2(numberOfBits - 1) as int);
    var counterMax := -counterMin - 1;
    updated := counter;
    if increment {
      if updated < counterMax {
        updated := SByte(updated + 1);
      }
    } else {
      if updated > counterMin {
        updated := SByte(updated - 1);
      }
    }
  }

  /**
   * `saturatedCounterUpdateWithReport`: the same update, reporting whether the counter
   * was saturated both before and after it.
   */
  method SaturatedCounterUpdateWithReport(counter: int, increment: bool, numberOfBits: int)
    returns (updated: int, report: bool)
    requires IsSByte(counter) && 1 <= numberOfBits <= 32
    ensures IsSByte(updated)
    ensures updated == Stepped(counter, increment, numberOfBits)
    ensures report <==> Saturated(counter, numberOfBits) && Saturated(updated, numberOfBits)
  {
    var counterMin: int := -(Pow2(numberOfBits - 1) as int);
    var counterMax := -counterMin - 1;
    var wasSaturated := counter == counterMax || counter == counterMin;
    updated := SaturatedCounterUpdate(counter, increment, numberOfBits);
    report := wasSaturated && (updated == counterMax || updated == counterMin);
  }

  /**
   * For widths up to 8 (every width the predictor uses) an update keeps a counter in its
   * range, moves it by exactly one toward the outcome, and leaves it alone only at the
   * bound on the outcome's side.
   */
  lemma SteppedWithinRange(counter: int, increment: bool, n: int)
    requires 1 <= n <= 8 && InRange(counter, n)
    ensures InRange(Stepped(counter, increment, n), n)
    ensures increment ==> Stepped(counter, increment, n) == if counter == CounterMax(n) then counter else counter + 1
    ensures !increment ==> Stepped(counter, increment, n) == if counter == CounterMin(n) then counter else counter - 1
  {
    Pow2Monotone(n - 1, 7);
  }

  /**
   * For widths 2 to 8 the report is true exactly when the counter already sat at the
   * bound on the outcome's side, so that the update left it unchanged.
   */
  lemma ReportMeansSaturatedTowardOutcome(counter: int, increment: bool, n: int)
    requires 2 <= n <= 8 && InRange(counter, n)
    ensures Saturated(counter, n) && Saturated(Stepped(counter, increment, n), n)
        <==> counter == (if increment then CounterMax(n) else CounterMin(n))
  {
    SteppedWithinRange(counter, increment, n);
    Pow2Monotone(1, n - 1);
  }

  /** Repeated updates in one direction. */
  function SteppedTimes(counter: int, increment: bool, n: int, k: nat): int
    requires 1 <= n <= 32
  {
    if k == 0 then counter else Stepped(SteppedTimes(counter, increment, n, k - 1), increment, n)
  }

  /**
   * A counter of width up to 8 saturates after at most 2^n - 1 updates in one direction,
   * whatever it started from in its range.
   */
  lemma {:induction false} SaturatesAfterEnoughUpdates(counter: int, increment: bool, n: int, k: nat)
    requires 1 <= n <= 8 && InRange(counter, n)
    ensures InRange(SteppedTimes(counter, increment, n, k), n)
    ensures SteppedTimes(counter, increment, n, k) == if increment then Min(counter + k, CounterMax(n)) else Max(counter - k, CounterMin(n))
  {
    if k > 0 {
      SaturatesAfterEnoughUpdates(counter, increment, n, k - 1);
      SteppedWithinRange(SteppedTimes(counter, increment, n, k - 1), increment, n);
    }
  }

  // ---------------------------------------------------------------------------
  // The folded global history of the CBP-1 PPM-like predictor. The pipeline, which is
  // not part of this model, creates and initialises one per GEHL table and one per RHSP
  // table, with LOGGEHL and LOGRHSP as the compressed length.

  class HistoryRollingHash {
    var historyHash: Word
    var compressedLengthBits: int
    var historyLength: int
    var lastEntryHashIndex: int

    /** A new object: every field zero. */
    constructor ()
      ensures historyHash == 0 && compressedLengthBits == 0 && historyLength == 0 && lastEntryHashIndex == 0
    {
      historyHash := 0;
      compressedLengthBits := 0;
      historyLength := 0;
      lastEntryHashIndex := 0;
    }

    /**
     * `init`: the entry leaving the window enters the hash at bit `historyLength % compressedLengthBits`.
     * The source's third argument `N` is never read, so it is not a parameter here.
     */
    method Init(historyLength: int, compressedLengthBits: int)
      requires historyLength >= 0 && compressedLengthBits > 0
      modifies this
      ensures historyHash == 0
      ensures this.historyLength == historyLength && this.compressedLengthBits == compressedLengthBits
      ensures lastEntryHashIndex == historyLength % compressedLengthBits
      ensures 0 <= lastEntryHashIndex < compressedLengthBits
    {
      historyHash := 0;
      this.historyLength := historyLength;
      this.compressedLengthBits := compressedLengthBits;
      lastEntryHashIndex := historyLength % compressedLengthBits;
    }

    /**
     * `update`: shift the hash, XOR in the newest entry and the entry leaving the window
     * (both `sbyte`s, sign-extended), fold the bits above the compressed length back in
     * and keep the low `compressedLengthBits` bits. Buffer positions are the pointer
     * modulo the buffer length (`& (HISTBUFFERLENGTH - 1)`, also for a negative pointer).
     */
    method Update(history: array<int>, historyPointer: int)
      requires historyPointer % HIST_BUFFER_LENGTH < history.Length
      requires (historyPointer + historyLength) % HIST_BUFFER_LENGTH < history.Length
      requires forall i :: 0 <= i < history.Length ==> IsSByte(history[i])
      modifies this
      ensures compressedLengthBits == old(compressedLengthBits) && historyLength == old(historyLength)
      ensures lastEntryHashIndex == old(lastEntryHashIndex)
      ensures historyHash == Folded(old(historyHash), history[historyPointer % HIST_BUFFER_LENGTH],
                                    history[(historyPointer + historyLength) % HIST_BUFFER_LENGTH],
                                    lastEntryHashIndex, compressedLengthBits)
      ensures historyHash < Pow2(compressedLengthBits % 32)
    {
      historyHash := WordXor(ShiftLeft(historyHash, 1), Wrap(history[historyPointer % HIST_BUFFER_LENGTH]));
      historyHash := WordXor(historyHash, ShiftLeft(Wrap(history[(historyPointer + historyLength) % HIST_BUFFER_LENGTH]), lastEntryHashIndex));
      historyHash := WordXor(historyHash, ShiftRight(historyHash, compressedLengthBits));
      historyHash := AndMask(historyHash, compressedLengthBits);
    }

    /** `reset`. */
    method Reset()
      modifies this
      ensures historyHash == 0
      ensures compressedLengthBits == old(compressedLengthBits) && historyLength == old(historyLength)
      ensures lastEntryHashIndex == old(lastEntryHashIndex)
    {
      historyHash := 0;
    }
  }

  /** One step of the folded history: the result never has a bit at or above the compressed length. */
  function Folded(hash: Word, newest: int, oldest: int, lastEntryHashIndex: int, compressedLengthBits: int): (r: Word)
    ensures r < Pow2(compressedLengthBits % 32)
  {
    var shifted := WordXor(WordXor(ShiftLeft(hash, 1), Wrap(newest)), ShiftLeft(Wrap(oldest), lastEntryHashIndex));
    AndMask(WordXor(shifted, ShiftRight(shifted, compressedLengthBits)), compressedLengthBits)
  }

  // ---------------------------------------------------------------------------
  // The path history: a ring buffer of branch addresses, newest at the current pointer.

  /** `getValueAt`'s index: `pointer + position`, less the length once it reaches it. */
  function RingIndex(pointer: int, position: int, length: int): int {
    if pointer + position >= length then pointer + position - length else pointer + position
  }

  /** The buffer read from the pointer on, wrapping once. */
  function RecentOf(h: seq<Word>, pointer: int): (r: seq<Word>)
    requires |h| == 0 || 0 <= pointer < |h|
    ensures |r| == |h|
  {
    seq(|h|, k requires 0 <= k < |h| => h[RingIndex(pointer, k, |h|)])
  }

  /** The `n` most recent of the values `log` records, newest first, then zeros. */
  ghost function Window(log: seq<Word>, n: nat): (w: seq<Word>)
    ensures |w| == n
  {
    if n == 0 then []
    else if log == [] then seq(n, _ => 0)
    else [log[|log| - 1]] + Window(log[..|log| - 1], n - 1)
  }

  /** Entry `k` of the window is the `k`-th most recent value, or 0 before there were that many. */
  lemma {:induction false} WindowAt(log: seq<Word>, n: nat, k: nat)
    requires k < n
    ensures Window(log, n)[k] == if k < |log| then log[|log| - 1 - k] else 0
  {
    if log != [] && k > 0 {
      WindowAt(log[..|log| - 1], n - 1, k - 1);
    }
  }

  /** A shorter window is a prefix of a longer one. */
  lemma {:induction false} WindowPrefix(log: seq<Word>, n: nat)
    requires n >= 1
    ensures Window(log, n - 1) == Window(log, n)[..n - 1]
  {
    if n > 1 && log != [] {
      WindowPrefix(log[..|log| - 1], n - 1);
    }
  }

  /** Stepping the pointer back and writing there puts the value first and drops the oldest. */
  lemma RecentAfterInsert(h: seq<Word>, pointer: int, value: Word)
    requires 0 <= pointer < |h|
    ensures var p := if pointer == 0 then |h| - 1 else pointer - 1;
            RecentOf(h[p := value], p) == [value] + RecentOf(h, pointer)[..|h| - 1]
  {
    var p := if pointer == 0 then |h| - 1 else pointer - 1;
    var after, before := RecentOf(h[p := value], p), [value] + RecentOf(h, pointer)[..|h| - 1];
    forall k | 0 <= k < |h|
      ensures after[k] == before[k]
    {
      if k > 0 {
        assert RingIndex(p, k, |h|) == RingIndex(pointer, k - 1, |h|);
      }
    }
  }

  class PathHistory {
    const historyLength: int
    const history: array<Word>
    var currentPointer: int
    /** Every value inserted so far, oldest first. */
    ghost var inserted: seq<Word>

    /** The buffer read from the pointer on holds the most recent inserts, newest first. */
    ghost predicate Valid()
      reads this, history
    {
      history.Length == historyLength &&
      (historyLength == 0 ==> currentPointer == 0) &&
      (historyLength > 0 ==> 0 <= currentPointer < historyLength) &&
      RecentOf(history[..], currentPointer) == Window(inserted, historyLength)
    }

    /** A zero-filled buffer with the pointer at 0. */
    constructor (historyLength: int)
      requires historyLength >= 0
      ensures Valid() && fresh(history)
      ensures this.historyLength == historyLength && currentPointer == 0 && inserted == []
      ensures forall i :: 0 <= i < historyLength ==> history[i] == 0
    {
      this.historyLength := historyLength;
      history := new Word[historyLength](_ => 0);
      currentPointer := 0;
      inserted := [];
    }

    /** `insert`: the pointer steps back one place, cyclically, and the value is written there. */
    method Insert(value: Word)
      requires Valid() && historyLength >= 1
      modifies this, history
      ensures Valid()
      ensures currentPointer == if old(currentPointer) == 0 then historyLength - 1 else old(currentPointer) - 1
      ensures history[..] == old(history[..])[currentPointer := value]
      ensures inserted == old(inserted) + [value]
    {
      ghost var h := history[..];
      RecentAfterInsert(h, currentPointer, value);
      WindowPrefix(inserted, historyLength);
      assert (inserted + [value])[..|inserted|] == inserted;
      currentPointer := currentPointer - 1;
      if currentPointer < 0 {
        currentPointer := historyLength - 1;
      }
      history[currentPointer] := value;
      inserted := inserted + [value];
    }

    /**
     * `getValueAt`: for a position below the length, the `position`-th most recent
     * insert (0 for the newest), or 0 when fewer values were inserted.
     */
    function GetValueAt(position: int): (v: Word)
      reads this, history
      requires Valid()
      requires 0 <= RingIndex(currentPointer, position, historyLength) < historyLength
      ensures 0 <= position < historyLength ==>
                v == if position < |inserted| then inserted[|inserted| - 1 - position] else 0
    {
      if 0 <= position < historyLength then
        WindowAt(inserted, historyLength, position);
        assert RecentOf(history[..], currentPointer)[position] == history[RingIndex(currentPointer, position, historyLength)];
        history[RingIndex(currentPointer, position, historyLength)]
      else
        history[RingIndex(currentPointer, position, historyLength)]
    }
  }

  // ---------------------------------------------------------------------------
  // The rolling hashes of the path history.

  /** `x >> k` on a `uint`: the vacated high bits are zero. */
  function ShiftRightLogical(x: Word, k: int): Word {
    x / Pow2(k % 32)
  }

  /** `rotateleft`: `value` shifted left by `k`, OR its bits above `c - k`, cut to the low `c` bits. */
  function RotateLeft(value: Word, k: int, c: int): (r: Word)
    ensures r < Pow2(c % 32)
  {
    AndMask(WordOr(ShiftLeft(value, k), ShiftRightLogical(value, c - k)), c)
  }

  /** `x << k` keeps the bits of `x` below `32 - k`, moved up by `k`. */
  lemma ShiftLeftKeepsLowBits(x: Word, k: nat)
    requires k < 32
    ensures ShiftLeft(x, k) == (x % Pow2(32 - k)) * Pow2(k)
  {
    var p, r := Pow2(k), Pow2(32 - k);
    assert ShiftLeft(x, k) == (x * p) % WORD by {
      assert k % 32 == k;
      ShlIsMul(x, k);
    }
    assert WORD == p * r by {
      Pow2Add(k, 32 - k);
      Pow2Word();
    }
    ModOfMultiple(x, p, r);
  }

  /** The part of a number below `p * q` above its low `q` is below `p`. */
  lemma HighPartBelow(v: nat, p: nat, q: nat)
    requires q > 0 && v < p * q
    ensures v / q < p
  {
    DivModUnique(v, q, v / q, v % q);
    if v / q >= p {
      MulLe(p, v / q, q);
    }
  }

  /** Cutting `a * p + hi` (with `hi < p`) to `p * q` keeps `a % q` above `hi`. */
  lemma CutBelow(a: nat, hi: nat, p: nat, q: nat)
    requires hi < p && q > 0
    ensures (a * p + hi) % (p * q) == (a % q) * p + hi
  {
    var lo := a % q;
    MulLe(lo + 1, q, p);
    assert a * p + hi == (a / q) * (p * q) + (lo * p + hi) by {
      assert a == (a / q) * q + lo;
    }
    DivModUnique(a * p + hi, p * q, a / q, lo * p + hi);
  }

  /** The bits of a `c`-bit value from `c - k` up, brought down, are fewer than `k`. */
  lemma WrappedBitsBelow(v: nat, k: nat, c: nat)
    requires k <= c && v < Pow2(c)
    ensures v / Pow2(c - k) < Pow2(k)
  {
    Pow2Add(k, c - k);
    assert k + (c - k) == c;
    HighPartBelow(v, Pow2(k), Pow2(c - k));
  }

  /** The two halves `rotateleft` joins: the shifted value and the bits that wrap around. */
  lemma RotateJoin(v: Word, k: nat, c: nat)
    requires k <= c < 32 && v < Pow2(c)
    ensures WordOr(ShiftLeft(v, k), ShiftRightLogical(v, c - k)) == (v % Pow2(32 - k)) * Pow2(k) + v / Pow2(c - k)
  {
    WrappedBitsBelow(v, k, c);
    ShiftLeftKeepsLowBits(v, k);
    ShiftRightLogicalDivides(v, c - k);
    OrDisjoint(v % Pow2(32 - k), v / Pow2(c - k), k);
  }

  lemma ShiftRightLogicalDivides(x: Word, k: nat)
    requires k < 32
    ensures ShiftRightLogical(x, k) == x / Pow2(k)
  {
    assert k % 32 == k;
  }

  /** Cutting the joined halves to `c` bits keeps the low `c - k` bits of `v` above the wrapped ones. */
  lemma RotateCut(v: nat, k: nat, c: nat)
    requires k <= c < 32 && v < Pow2(c)
    ensures ((v % Pow2(32 - k)) * Pow2(k) + v / Pow2(c - k)) % Pow2(c) == (v % Pow2(c - k)) * Pow2(k) + v / Pow2(c - k)
  {
    var p, q, m := Pow2(k), Pow2(c - k), Pow2(32 - c);
    var a: nat, hi: nat := v % Pow2(32 - k), v / q;
    assert Pow2(c) == p * q by {
      Pow2Add(k, c - k);
    }
    assert Pow2(32 - k) == q * m by {
      Pow2Add(c - k, 32 - c);
      assert c - k + (32 - c) == 32 - k;
    }
    HighPartBelow(v, p, q);
    CutBelow(a, hi, p, q);
    ModOfMod(v, q, m);
  }

  /** The low part of `v` modulo `q` moved up by `p`, over its high part. */
  function SwapHalves(v: nat, p: nat, q: nat): nat
    requires q > 0
  {
    (v % q) * p + v / q
  }

  /** Swapping the halves of a number below `p * q` twice gives it back. */
  lemma SwapHalvesTwice(v: nat, p: nat, q: nat)
    requires p > 0 && q > 0 && v < p * q
    ensures SwapHalves(SwapHalves(v, p, q), q, p) == v
  {
    var hi: nat, lo: nat := v / q, v % q;
    var w := lo * p + hi;
    HighPartBelow(v, p, q);
    MulLe(lo + 1, q, p);
    DivModUnique(w, p, lo, hi);
    DivModUnique(v, q, hi, lo);
  }

  /** The same for the two parts of a `c`-bit value split `k` bits from the top. */
  lemma SwapBitsTwice(v: nat, k: nat, c: nat)
    requires k <= c && v < Pow2(c)
    ensures SwapHalves(SwapHalves(v, Pow2(k), Pow2(c - k)), Pow2(c - k), Pow2(k)) == v
  {
    Pow2Add(k, c - k);
    assert k + (c - k) == c;
    SwapHalvesTwice(v, Pow2(k), Pow2(c - k));
  }

  /**
   * On a value of `c` bits, `rotateleft` by `k` (for 0 <= k <= c < 32) is a rotation: the
   * low `c - k` bits move up by `k` and the top `k` bits come around to the bottom.
   */
  lemma RotateLeftRotates(v: Word, k: nat, c: nat)
    requires 0 <= k <= c < 32 && v < Pow2(c)
    ensures RotateLeft(v, k, c) == SwapHalves(v, Pow2(k), Pow2(c - k))
  {
    RotateJoin(v, k, c);
    AndMaskIsMod(WordOr(ShiftLeft(v, k), ShiftRightLogical(v, c - k)), c);
    RotateCut(v, k, c);
  }

  /** Rotating a `c`-bit value by `k` and then by `c - k` gives it back. */
  lemma RotateLeftInverse(v: Word, k: nat, c: nat)
    requires k <= c < 32 && v < Pow2(c)
    ensures RotateLeft(RotateLeft(v, k, c), c - k, c) == v
  {
    var w := RotateLeft(v, k, c);
    RotateLeftRotates(v, k, c);
    SwapBitsTwice(v, k, c);
    RotateLeftRotates(w, c - k, c);
    assert c - (c - k) == k;
  }

  class PathHistoryRollingHash {
    var pathHistoryHash: Word
    const compressedLengthBits: int
    const pathHistoryLength: int
    const lastEntryHashIndex: int
    const numberOfInjectedBits: int
    const compressedLengthMask: Word
    const injectedBitsMask: Word

    constructor (pathHistoryLength: int, compressedLengthBits: int, numberOfInjectedBits: int)
      requires pathHistoryLength >= 0 && compressedLengthBits > 0
      ensures this.pathHistoryLength == pathHistoryLength && this.compressedLengthBits == compressedLengthBits
      ensures this.numberOfInjectedBits == numberOfInjectedBits
      ensures lastEntryHashIndex == pathHistoryLength % compressedLengthBits
      ensures compressedLengthMask == Mask(compressedLengthBits) && injectedBitsMask == Mask(numberOfInjectedBits)
      ensures pathHistoryHash == 0
    {
      this.pathHistoryLength := pathHistoryLength;
      this.compressedLengthBits := compressedLengthBits;
      this.numberOfInjectedBits := numberOfInjectedBits;
      lastEntryHashIndex := pathHistoryLength % compressedLengthBits;
      compressedLengthMask := Mask(compressedLengthBits);
      injectedBitsMask := Mask(numberOfInjectedBits);
      pathHistoryHash := 0;
    }

    /**
     * `update`: rotate the hash by one, then XOR in the low bits of the newest address and
     * those of the address `pathHistoryLength` places back, rotated to where it entered.
     * The hash stays within `compressedLengthBits` bits when no more bits are injected.
     */
    method Update(ph: PathHistory)
      requires ph.Valid() && ph.historyLength >= 1
      requires 0 <= RingIndex(ph.currentPointer, pathHistoryLength, ph.historyLength) < ph.historyLength
      modifies this
      ensures pathHistoryHash ==
                WordXor(RotateLeft(old(pathHistoryHash), 1, compressedLengthBits),
                        WordXor(AndMask(ph.GetValueAt(0), numberOfInjectedBits),
                                RotateLeft(AndMask(ph.GetValueAt(pathHistoryLength), numberOfInjectedBits),
                                           lastEntryHashIndex, compressedLengthBits)))
      ensures numberOfInjectedBits % 32 <= compressedLengthBits % 32 ==> pathHistoryHash < Pow2(compressedLengthBits % 32)
    {
      var rotated := RotateLeft(pathHistoryHash, 1, compressedLengthBits);
      var injectedBits := AndMask(ph.GetValueAt(0), numberOfInjectedBits);
      var outjectedBits := AndMask(ph.GetValueAt(pathHistoryLength), numberOfInjectedBits);
      outjectedBits := RotateLeft(outjectedBits, lastEntryHashIndex, compressedLengthBits);
      pathHistoryHash := WordXor(rotated, WordXor(injectedBits, outjectedBits));
      if numberOfInjectedBits % 32 <= compressedLengthBits % 32 {
        Pow2Monotone(numberOfInjectedBits % 32, compressedLengthBits % 32);
        XorBelowPow2(injectedBits, outjectedBits, compressedLengthBits % 32);
        XorBelowPow2(rotated, Xor(injectedBits, outjectedBits), compressedLengthBits % 32);
      }
    }

    /** `reset`. */
    method Reset()
      modifies this
      ensures pathHistoryHash == 0
    {
      pathHistoryHash := 0;
    }
  }

  // ---------------------------------------------------------------------------
  // Frequency bins: bin `i` takes the branches whose frequency reaches the largest
  // frequency seen, halved `i + 1` times.

  /** The largest of 0 and the frequencies in `seen`. */
  ghost function Largest(seen: seq<int>): int {
    if seen == [] then 0 else Max(Largest(seen[..|seen| - 1]), seen[|seen| - 1])
  }

  /** `Largest` is the maximum of everything seen, and 0 when nothing positive was. */
  lemma {:induction false} LargestIsMaximum(seen: seq<int>)
    ensures Largest(seen) >= 0
    ensures forall i :: 0 <= i < |seen| ==> seen[i] <= Largest(seen)
    ensures Largest(seen) == 0 || exists i :: 0 <= i < |seen| && seen[i] == Largest(seen)
  {
    if seen != [] {
      var earlier := seen[..|seen| - 1];
      LargestIsMaximum(earlier);
      assert forall i :: 0 <= i < |earlier| ==> earlier[i] == seen[i];
    }
  }

  /** `x >> k` on a non-negative number, one halving at a time. */
  function Halved(x: nat, k: nat): nat {
    if k == 0 then x else Halved(x, k - 1) / 2
  }

  /** The least frequency bin `i` admits: the largest frequency shifted right `FRATIOBITS` (1) bit per bin. */
  function Threshold(maximumFrequency: nat, i: nat): nat {
    Halved(maximumFrequency, i + 1)
  }

  /** Later bins admit lower frequencies: a frequency that reaches a bin reaches every later one. */
  lemma {:induction false} ThresholdsDecrease(maximumFrequency: nat, i: nat, j: nat)
    requires i <= j
    ensures Threshold(maximumFrequency, j) <= Threshold(maximumFrequency, i)
    decreases j
  {
    if i < j {
      ThresholdsDecrease(maximumFrequency, i, j - 1);
    }
  }

  class FrequencyBins {
    var numberOfBins: int
    var maximumFrequency: int
    /** The frequencies `update` was given since `init`. */
    ghost var seen: seq<int>

    ghost predicate Valid()
      reads this
    {
      maximumFrequency >= 0 && maximumFrequency == Largest(seen)
    }

    constructor ()
      ensures Valid() && numberOfBins == 0 && maximumFrequency == 0 && seen == []
    {
      numberOfBins := 0;
      maximumFrequency := 0;
      seen := [];
    }

    /** `init`. */
    method Init(numberOfBins: int)
      modifies this
      ensures Valid() && this.numberOfBins == numberOfBins && maximumFrequency == 0 && seen == []
    {
      this.numberOfBins := numberOfBins;
      maximumFrequency := 0;
      seen := [];
    }

    /**
     * `find`: the first bin whose threshold the frequency reaches, or the last bin when
     * it reaches none (`numberOfBins - 1`, which is -1 when there are no bins).
     */
    method Find(branchFrequency: int) returns (bin: int)
      requires Valid()
      ensures numberOfBins >= 1 ==> 0 <= bin < numberOfBins
      ensures numberOfBins < 1 ==> bin == numberOfBins - 1
      ensures forall j :: 0 <= j < bin ==> branchFrequency < Threshold(maximumFrequency, j)
      ensures 0 <= bin < numberOfBins - 1 ==> branchFrequency >= Threshold(maximumFrequency, bin)
    {
      bin := -1;
      var frequency := maximumFrequency;
      var i := 0;
      while i < numberOfBins
        invariant 0 <= i && (i == 0 || i <= numberOfBins)
        invariant bin == -1
        invariant frequency == Halved(maximumFrequency, i)
        invariant forall j :: 0 <= j < i ==> branchFrequency < Threshold(maximumFrequency, j)
      {
        frequency := frequency / 2;  // `frequency >> FRATIOBITS`
        if branchFrequency >= frequency {
          bin := i;
          break;
        }
        i := i + 1;
      }
      if bin < 0 {
        bin := numberOfBins - 1;
      }
    }

    /** `update`: the maximum frequency rises to a larger frequency. */
    method Update(branchFrequency: int)
      requires Valid()
      modifies this
      ensures Valid() && seen == old(seen) + [branchFrequency] && numberOfBins == old(numberOfBins)
      ensures maximumFrequency == Max(old(maximumFrequency), branchFrequency)
    {
      assert (seen + [branchFrequency])[..|seen|] == seen;
      if branchFrequency > maximumFrequency {
        maximumFrequency := branchFrequency;
      }
      seen := seen + [branchFrequency];
    }
  }

  // ---------------------------------------------------------------------------
  // COLT entries: one counter for each combination of the six TAGE predictions.

  /** Predictions packed first-is-highest, one bit each, as `composeIndex` builds them. */
  function Packed(bits: seq<bool>): (r: nat)
    ensures r < Pow2(|bits|)
  {
    if bits == [] then 0 else 2 * Packed(bits[..|bits| - 1]) + (if bits[|bits| - 1] then 1 else 0)
  }

  /** Bit `|bits| - 1 - i` of the packed number is prediction `i`, so the index determines the predictions. */
  lemma {:induction false} PackedBit(bits: seq<bool>, i: nat)
    requires i < |bits|
    ensures (Packed(bits) / Pow2(|bits| - 1 - i)) % 2 == if bits[i] then 1 else 0
  {
    var n := |bits|;
    if i < n - 1 {
      var earlier := bits[..n - 1];
      PackedBit(earlier, i);
      var b := if bits[n - 1] then 1 else 0;
      HalvesOf(Packed(earlier), b);
      DivOfDiv(Packed(bits), 2, Pow2(n - 2 - i));
      assert 2 * Pow2(n - 2 - i) == Pow2(n - 1 - i);
    }
  }

  /** Two prediction vectors of the same length with the same packed index are equal. */
  lemma PackedInjective(a: seq<bool>, b: seq<bool>)
    requires |a| == |b| && Packed(a) == Packed(b)
    ensures a == b
  {
    forall i | 0 <= i < |a|
      ensures a[i] == b[i]
    {
      PackedBit(a, i);
      PackedBit(b, i);
    }
  }

  /** Packing one more prediction doubles the index and adds the new bit. */
  lemma PackOneMore(bits: seq<bool>, i: nat)
    requires i < |bits|
    ensures Packed(bits[..i + 1]) == 2 * Packed(bits[..i]) + if bits[i] then 1 else 0
  {
    assert bits[..i + 1][..i] == bits[..i];
  }

  /** `(index << 1) | bit` appends the bit, while the index has fewer than 31 bits. */
  lemma AppendBit(index: nat, i: nat, bit: nat)
    requires i < 31 && index < Pow2(i) && bit <= 1
    ensures index < SIGN && WordOr(ShiftLeft(index, 1), bit) == 2 * index + bit
  {
    assert index < 0x4000_0000 by {
      Pow2Monotone(i, 30);
      Pow2Thirty();
    }
    assert ShiftLeft(index, 1) == 2 * index by {
      assert Shl(index, 1) == 2 * index;
    }
    OrLowBit(2 * index, bit);
  }

  /** A new COLT counter leans taken exactly when the first TAGE prediction is taken. */
  lemma InitialLeaning(bits: seq<bool>)
    requires |bits| == NUMBER_OF_TAGE_PREDICTORS
    ensures Packed(bits) >= 32 <==> bits[0]
  {
    PackedBit(bits, 0);
    assert Pow2(5) == 32;
  }

  class ColtEntry {
    const counters: array<int>

    ghost predicate Valid()
      reads this, counters
    {
      counters.Length == Pow2(NUMBER_OF_TAGE_PREDICTORS) &&
      forall i :: 0 <= i < counters.Length ==> InRange(counters[i], COLT_BITS)
    }

    /** The counters start at 1 in the upper half of the table and at -2 in the lower half. */
    constructor ()
      ensures Valid() && fresh(counters)
      ensures forall i :: 0 <= i < counters.Length ==> counters[i] == if i >= 32 then 1 else -2
    {
      assert Pow2(NUMBER_OF_TAGE_PREDICTORS) == 64;
      var table := new int[Pow2(NUMBER_OF_TAGE_PREDICTORS)];
      var i := 0;
      while i < table.Length
        invariant 0 <= i <= table.Length
        invariant forall j :: 0 <= j < i ==> table[j] == if j >= 32 then 1 else -2
      {
        // `((i >> (numberOfTagePredictors - 1)) & 1) == 1`
        table[i] := if (i / Pow2(NUMBER_OF_TAGE_PREDICTORS - 1)) % 2 == 1 then 1 else -2;
        i := i + 1;
      }
      counters := table;
    }

    /** `composeIndex`: the first six predictions packed first-is-highest. */
    method ComposeIndex(predtaken: seq<bool>) returns (index: int)
      requires |predtaken| >= NUMBER_OF_TAGE_PREDICTORS
      ensures index == Packed(predtaken[..NUMBER_OF_TAGE_PREDICTORS])
      ensures 0 <= index < Pow2(NUMBER_OF_TAGE_PREDICTORS)
    {
      Pow2Word();
      index := 0;
      var i := 0;
      while i < NUMBER_OF_TAGE_PREDICTORS
        invariant 0 <= i <= NUMBER_OF_TAGE_PREDICTORS
        invariant index == Packed(predtaken[..i])
      {
        var bit := if predtaken[i] then 1 else 0;
        PackOneMore(predtaken, i);
        AppendBit(index, i, bit);
        index := WordOr(ShiftLeft(index, 1), bit);
        i := i + 1;
      }
    }

    /** `ctr`: the counter the six predictions select. */
    method Ctr(predtaken: seq<bool>) returns (counter: int)
      requires Valid() && |predtaken| >= NUMBER_OF_TAGE_PREDICTORS
      ensures counter == counters[Packed(predtaken[..NUMBER_OF_TAGE_PREDICTORS])]
      ensures InRange(counter, COLT_BITS)
    {
      var index := ComposeIndex(predtaken);
      return counters[index];
    }

    /** `update`: the selected counter takes one saturating step toward the outcome; no other changes. */
    method Update(predtaken: seq<bool>, taken: bool)
      requires Valid() && |predtaken| >= NUMBER_OF_TAGE_PREDICTORS
      modifies counters
      ensures Valid()
      ensures var index := Packed(predtaken[..NUMBER_OF_TAGE_PREDICTORS]);
              counters[..] == old(counters[..])[index := Stepped(old(counters[index]), taken, COLT_BITS)]
    {
      var index := ComposeIndex(predtaken);
      SteppedWithinRange(counters[index], taken, COLT_BITS);
      counters[index] := SaturatedCounterUpdate(counters[index], taken, COLT_BITS);
    }
  }

  // ---------------------------------------------------------------------------
  // The tagged tables of a TAGE component: ageing and allocation of entries.

  /** A tagged table entry: a `short` tag, an `sbyte` prediction counter and an `sbyte` useful counter. */
  datatype TaggedTableEntry = TaggedTableEntry(tag: int, counter: int, useful: int)

  /** One entry after `decrementAllUsefulBits`. */
  function Aged(e: TaggedTableEntry): TaggedTableEntry {
    if e.useful > 0 then e.(useful := e.useful - 1) else e
  }

  function AgedTimes(e: TaggedTableEntry, k: nat): TaggedTableEntry {
    if k == 0 then e else Aged(AgedTimes(e, k - 1))
  }

  /**
   * Repeated ageing lowers a non-negative useful counter by one each time until it
   * reaches 0, never below, and leaves the tag and the prediction counter alone.
   */
  lemma {:induction false} AgeingStopsAtZero(e: TaggedTableEntry, k: nat)
    requires e.useful >= 0
    ensures AgedTimes(e, k) == e.(useful := Max(e.useful - k, 0))
  {
    if k > 0 {
      AgeingStopsAtZero(e, k - 1);
    }
  }

  /**
   * A freshly allocated entry predicts the outcome it was allocated for, and a single
   * update the other way turns its prediction around.
   */
  lemma AllocatedEntryIsWeak(taken: bool, counterBits: int)
    requires 1 <= counterBits <= 8
    ensures var counter := if taken then 0 else -1;
            InRange(counter, counterBits) && (counter >= 0 <==> taken) &&
            (Stepped(counter, !taken, counterBits) >= 0 <==> !taken)
  {
    Pow2Monotone(0, counterBits - 1);
  }

  class Tage {
    const numberOfTables: int
    const taggedTableLength: int
    const taggedTables: array2<TaggedTableEntry>
    const taggedTableIndexes: array<int>

    ghost predicate Valid()
      reads this
    {
      taggedTables.Length0 == numberOfTables && taggedTables.Length1 == taggedTableLength &&
      taggedTableIndexes.Length == numberOfTables
    }

    /** Empty tables (every entry zero) of `1 << taggedTableLengthBits` entries each. */
    constructor (numberOfTables: int, taggedTableLengthBits: int)
      requires numberOfTables >= 0 && 0 <= taggedTableLengthBits <= 30
      ensures Valid() && fresh(taggedTables) && fresh(taggedTableIndexes)
      ensures this.numberOfTables == numberOfTables && taggedTableLength == Pow2(taggedTableLengthBits)
      ensures forall i, j :: 0 <= i < numberOfTables && 0 <= j < taggedTableLength ==>
                taggedTables[i, j] == TaggedTableEntry(0, 0, 0)
    {
      this.numberOfTables := numberOfTables;
      taggedTableLength := Pow2(taggedTableLengthBits);
      taggedTables := new TaggedTableEntry[numberOfTables, Pow2(taggedTableLengthBits)]((i, j) => TaggedTableEntry(0, 0, 0));
      taggedTableIndexes := new int[numberOfTables];
    }

    /** `decrementAllUsefulBits`: every positive useful counter goes down by one. */
    method DecrementAllUsefulBits()
      requires Valid()
      modifies taggedTables
      ensures forall i, j :: 0 <= i < numberOfTables && 0 <= j < taggedTableLength ==>
                taggedTables[i, j] == Aged(old(taggedTables[i, j]))
    {
      var i := 0;
      while i < numberOfTables
        invariant 0 <= i <= numberOfTables
        invariant forall r, j :: 0 <= r < i && 0 <= j < taggedTableLength ==>
                    taggedTables[r, j] == Aged(old(taggedTables[r, j]))
        invariant forall r, j :: i <= r < numberOfTables && 0 <= j < taggedTableLength ==>
                    taggedTables[r, j] == old(taggedTables[r, j])
      {
        DecrementRow(i);
        i := i + 1;
      }
    }

    /** The inner loop of `decrementAllUsefulBits`, over table `i`. */
    method DecrementRow(i: int)
      requires Valid() && 0 <= i < numberOfTables
      modifies taggedTables
      ensures forall j :: 0 <= j < taggedTableLength ==> taggedTables[i, j] == Aged(old(taggedTables[i, j]))
      ensures forall r, j :: 0 <= r < numberOfTables && r != i && 0 <= j < taggedTableLength ==>
                taggedTables[r, j] == old(taggedTables[r, j])
    {
      var j := 0;
      while j < taggedTableLength
        invariant 0 <= j <= taggedTableLength
        invariant forall k :: 0 <= k < j ==> taggedTables[i, k] == Aged(old(taggedTables[i, k]))
        invariant forall r, k :: 0 <= r < numberOfTables && 0 <= k < taggedTableLength && (r != i || k >= j) ==>
                    taggedTables[r, k] == old(taggedTables[r, k])
      {
        if taggedTables[i, j].useful > 0 {
          taggedTables[i, j] := taggedTables[i, j].(useful := taggedTables[i, j].useful - 1);
        }
        j := j + 1;
      }
    }

    /**
     * `allocateEntry`: the entry table `tableIndex` last looked up gets the branch's tag
     * (`computeTag`, passed in), a counter just on the outcome's side (0 for taken, -1
     * for not taken) and a useful counter of 0; nothing else changes.
     */
    method AllocateEntry(tableIndex: int, tag: int, taken: bool)
      requires Valid() && 0 <= tableIndex < numberOfTables
      requires 0 <= taggedTableIndexes[tableIndex] < taggedTableLength
      modifies taggedTables
      ensures taggedTables[tableIndex, taggedTableIndexes[tableIndex]] == TaggedTableEntry(tag, if taken then 0 else -1, 0)
      ensures forall r, j ::
                0 <= r < numberOfTables && 0 <= j < taggedTableLength && (r != tableIndex || j != taggedTableIndexes[tableIndex])
                ==> taggedTables[r, j] == old(taggedTables[r, j])
    {
      var index := taggedTableIndexes[tableIndex];
      taggedTables[tableIndex, index] := taggedTables[tableIndex, index].(tag := tag);
      taggedTables[tableIndex, index] := taggedTables[tableIndex, index].(counter := if taken then 0 else -1);
      taggedTables[tableIndex, index] := taggedTables[tableIndex, index].(useful := 0);
    }
  }

  // ---------------------------------------------------------------------------
  // The predictor as the simulator sees it.

  /** The exception a call on the missing pipeline throws. */
  datatype Thrown = NullReferenceException

  class MTAGESCPredictor {
    /** Whether the `predictor` field refers to a pipeline; only `reset` creates one. */
    var hasPipeline: bool

    /** The constructor ignores its argument and creates no pipeline. */
    constructor (predictTaken: bool)
      ensures !hasPipeline
    {
      hasPipeline := false;
    }

    /**
     * `predictBranch`: the pipeline's prediction for the address, which is passed in since
     * the pipeline is not part of this model; without a pipeline the call throws.
     */
    method PredictBranch(info: BranchInfo, pipelinePrediction: bool) returns (r: Result<bool, Thrown>)
      ensures r == if hasPipeline then Success(pipelinePrediction) else Failure(NullReferenceException)
    {
      if !hasPipeline {
        return Failure(NullReferenceException);
      }
      return Success(pipelinePrediction);
    }

    /**
     * `update`: hands the pipeline the address, the outcome, the target and whether the
     * branch is conditional; the result carries that flag. Without a pipeline it throws.
     */
    method Update(branch: Branch) returns (r: Result<bool, Thrown>)
      ensures r == if hasPipeline then Success(IsConditional(branch.info)) else Failure(NullReferenceException)
    {
      if !hasPipeline {
        return Failure(NullReferenceException);
      }
      var branchIsConditional := branch.info.branchFlags & BR_CONDITIONAL > 0;
      return Success(branchIsConditional);
    }

    /** `reset`: a new pipeline. */
    method Reset()
      modifies this
      ensures hasPipeline
    {
      hasPipeline := true;
    }
  }

  /** A new predictor throws on its first prediction and predicts only after a reset. */
  method PredictsOnlyAfterReset(info: BranchInfo, pipelinePrediction: bool)
    returns (before: Result<bool, Thrown>, after: Result<bool, Thrown>)
    ensures before == Failure(NullReferenceException)
    ensures after == Success(pipelinePrediction)
  {
    var predictor := new MTAGESCPredictor(true);
    before := predictor.PredictBranch(info, pipelinePrediction);
    predictor.Reset();
    after := predictor.PredictBranch(info, pipelinePrediction);
  }

  function Min(a: int, b: int): int {
    if a <= b then a else b
  }

  function Max(a: int, b: int): int {
    if a >= b then a else b
  }
}
