/**
 * The branch records that trace readers hand to predictors: the static information of
 * a branch (address, opcode, flags), whether it was taken and its target address.
 * Addresses and flags are 32-bit unsigned values, kept as `bv32` bit patterns.
 */
module Branches {

  const BR_CONDITIONAL: bv32 := 1
  const BR_INDIRECT: bv32 := 2
  const BR_CALL: bv32 := 4
  const BR_RETURN: bv32 := 8

  datatype BranchInfo = BranchInfo(address: bv32, opcode: bv32, branchFlags: bv32)

  /** A branch of a trace; readers that know no target report 0 or the address. */
  datatype Branch = Branch(info: BranchInfo, taken: bool, targetAddress: bv32)

  predicate IsConditional(info: BranchInfo) {
    info.branchFlags & BR_CONDITIONAL != 0
  }
}
