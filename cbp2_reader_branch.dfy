/**
 * A branch as the CBP2 decoder remembers it: its record code, direction, address and
 * target, and the time of its last use for the least-recently-used replacement.
 */
module CBP2Branches {

  /** A value of a byte read from the trace. */
  type Byte = x: int | 0 <= x < 0x100

  /** `CBP2ReaderBranch`. */
  datatype ReaderBranch = ReaderBranch(taken: bool, code: Byte, address: bv32, targetAddress: bv32, lruTime: int)
  {
    /** `equal`: same code, direction and address, and the same target unless `ignoreTarget`. */
    predicate Equal(other: ReaderBranch, ignoreTarget: bool) {
      other.code == code && other.taken == taken && other.address == address
      && (ignoreTarget || other.targetAddress == targetAddress)
    }
  }

  /** The default constructor and `clear`: every field zero or false. */
  const BLANK := ReaderBranch(false, 0, 0, 0, 0)

  /** The four-argument constructor: the fields given, and a last use at time 0. */
  function Make(code: Byte, address: bv32, targetAddress: bv32, taken: bool): (r: ReaderBranch)
    ensures r.lruTime == BLANK.lruTime
    ensures r.Equal(BLANK, false) <==> code == 0 && address == 0 && targetAddress == 0 && !taken
  {
    ReaderBranch(taken, code, address, targetAddress, 0)
  }

  /** A branch equals itself, whatever the target flag; the time of last use is not compared. */
  lemma EqualReflexive(b: ReaderBranch, ignoreTarget: bool, time: int)
    ensures b.Equal(b, ignoreTarget)
    ensures b.Equal(b.(lruTime := time), ignoreTarget)
  {
  }

  /** Equality with the target implies equality without it, and the two differ only there. */
  lemma EqualIgnoringTarget(a: ReaderBranch, b: ReaderBranch)
    ensures a.Equal(b, false) ==> a.Equal(b, true)
    ensures a.Equal(b, false) <==> a.Equal(b, true) && a.targetAddress == b.targetAddress
  {
  }

  /** The relation is symmetric. */
  lemma EqualSymmetric(a: ReaderBranch, b: ReaderBranch, ignoreTarget: bool)
    ensures a.Equal(b, ignoreTarget) <==> b.Equal(a, ignoreTarget)
  {
  }
}
