/**
 * The decoder of CBP2 traces (the format of the second Championship Branch Prediction).
 * A record is one byte, optionally preceded by an instruction-count prefix (0x87 and two
 * bytes) and by an escape (0x82 or 0x83) that corrects a return-address-stack target.
 * A byte below 16 names one of the eight ways of the memory line selected by the previous
 * branch's target: the branch there repeats, and a byte of 8 or more also says that the
 * return-address stack predicted its target. Any other byte is a new branch whose address
 * and target follow as two little-endian 32-bit words. The byte's high nibble is the
 * branch class and its low nibble the opcode. The decompressed stream is a parameter.
 */
module CBP2 {
  import opened Wrappers
  import opened Branches
  import opened CBP2Branches

  const RETURN_ADDRESS_STACK_SIZE := 100
  const BRANCH_MEMORY_NUMBER_OF_LINES := 0x1_0000
  const BRANCH_MEMORY_ASSOCIATIVITY_SIZE := 8
  /** The code of a return whose target the return-address stack may know. */
  const RETURN_CODE := 0x70

  // ---------------------------------------------------------------------------
  // Four-byte words.

  /** `(uint)` of what `ReadByte` gives: the end of the stream, -1, becomes all ones. */
  function AsUint(b: int): (w: bv32)
    requires -1 <= b < 0x100
    ensures b < 0 <==> w == 0xFFFF_FFFF
    ensures 0 <= b ==> w < 0x100
  {
    if b < 0 then 0xFFFF_FFFF else b as bv32
  }

  /** `readUint`: four bytes, least significant first. */
  function LittleEndian(x0: bv32, x1: bv32, x2: bv32, x3: bv32): bv32 {
    x0 | (x1 << 8) | (x2 << 16) | (x3 << 24)
  }

  /** The word that starts at byte `p` of `s`. */
  function WordAt(s: seq<Byte>, p: nat): bv32
    requires p + 4 <= |s|
  {
    LittleEndian(AsUint(s[p]), AsUint(s[p + 1]), AsUint(s[p + 2]), AsUint(s[p + 3]))
  }

  /** The four byte values of a word, least significant first. */
  function WordBytes(v: bv32): (b: seq<bv32>)
    ensures |b| == 4 && forall i :: 0 <= i < 4 ==> b[i] < 0x100
  {
    [v & 0xFF, (v >> 8) & 0xFF, (v >> 16) & 0xFF, v >> 24]
  }

  /** Reading the bytes of a word gives the word back. */
  lemma ReadWordBytes(v: bv32)
    ensures var b := WordBytes(v); LittleEndian(b[0], b[1], b[2], b[3]) == v
  {
  }

  /** Writing the word read from four bytes gives the bytes back. */
  lemma WordBytesOfRead(x0: bv32, x1: bv32, x2: bv32, x3: bv32)
    requires x0 < 0x100 && x1 < 0x100 && x2 < 0x100 && x3 < 0x100
    ensures WordBytes(LittleEndian(x0, x1, x2, x3)) == [x0, x1, x2, x3]
  {
  }

  /** A word cut short by the end of the stream has all ones in its missing top byte. */
  lemma ReadPastEnd(x0: int, x1: int, x2: int)
    requires -1 <= x0 < 0x100 && -1 <= x1 < 0x100 && -1 <= x2 < 0x100
    ensures LittleEndian(AsUint(x0), AsUint(x1), AsUint(x2), AsUint(-1)) >> 24 == 0xFF
  {
  }

  // ---------------------------------------------------------------------------
  // Record classes.

  /** The flags of each branch class (the high nibble of the code); none for another class. */
  function ClassFlags(cls: int): Option<bv32> {
    if cls == 1 || cls == 2 then Some(BR_CONDITIONAL)
    else if cls == 3 then Some(0)
    else if cls == 4 then Some(BR_INDIRECT)
    else if cls == 5 then Some(BR_CALL)
    else if cls == 6 then Some(BR_CALL | BR_INDIRECT)
    else if cls == 7 then Some(BR_RETURN)
    else None
  }

  /** Exactly the classes 1 to 7 are branches; only 1 and 2 are conditional, only 7 a return. */
  lemma ClassFlagsCases(cls: int)
    ensures ClassFlags(cls).Some? <==> 1 <= cls <= 7
    ensures ClassFlags(cls).Some? ==>
      (IsConditional(BranchInfo(0, 0, ClassFlags(cls).value)) <==> cls <= 2)
      && (ClassFlags(cls).value & BR_RETURN != 0 <==> cls == 7)
      && (ClassFlags(cls).value & BR_CALL != 0 <==> cls == 5 || cls == 6)
  {
  }

  /** The return-address-stack target after a `0x82` (+2) or `0x83` (-3) escape, in 32 bits. */
  function Adjusted(popped: bv32, offBy2: bool, offBy3: bool): bv32 {
    if offBy2 then popped + 2 else if offBy3 then popped - 3 else popped
  }

  /** The escapes undo each other's offsets: +2 then -3 is -1, wrapping in 32 bits. */
  lemma AdjustedWraps(popped: bv32)
    ensures Adjusted(popped, false, true) == popped + 0xFFFF_FFFD
    ensures Adjusted(0, false, true) == 0xFFFF_FFFD
    ensures Adjusted(0xFFFF_FFFF, true, false) == 1
  {
  }

  /** The counter the miss of a class updates, as written: `classMisspredicted[cls]++` on an 8-element array. */
  function CountMissAsWritten(counts: seq<int>, cls: int): Result<seq<int>, string>
    requires |counts| == 8
  {
    if 0 <= cls < 8 then Success(counts[cls := counts[cls] + 1])
    else Failure("IndexOutOfRangeException")
  }

  /** The counter update a miss evidently intends: classes outside the array are not branches. */
  function CountMiss(counts: seq<int>, cls: int): (r: seq<int>)
    requires |counts| == 8
    ensures |r| == 8
    ensures 0 <= cls < 8 ==> r[cls] == counts[cls] + 1
    ensures forall i :: 0 <= i < 8 && i != cls ==> r[i] == counts[i]
  {
    if 0 <= cls < 8 then counts[cls := counts[cls] + 1] else counts
  }

  /** The two agree on every class the record format defines and on class 0. */
  lemma CountMissAgrees(counts: seq<int>, cls: int)
    requires |counts| == 8
    ensures CountMissAsWritten(counts, cls).Success? <==> 0 <= cls < 8
    ensures CountMissAsWritten(counts, cls).Success? ==> CountMissAsWritten(counts, cls).value == CountMiss(counts, cls)
  {
  }

  /**
   * After an escape the next byte is not checked for the top bit: `0x82 0x90` is a miss
   * of class 9, which indexes the 8-element counter array out of range, where the switch
   * on the class meant to return no branch.
   */
  lemma EscapedHighByteThrows(counts: seq<int>)
    requires |counts| == 8
    ensures var b: int := 0x90; !(b < 2 * BRANCH_MEMORY_ASSOCIATIVITY_SIZE) && b / 16 == 9
    ensures CountMissAsWritten(counts, 0x90 / 16).Failure?
    ensures CountMiss(counts, 0x90 / 16) == counts && ClassFlags(0x90 / 16).None?
  {
  }

  // ---------------------------------------------------------------------------
  // The branch memory.

  /** A value of the `uint` clock that stamps the ways. */
  type Time = t: int | 0 <= t < 0x1_0000_0000

  /** `now++` on the clock: it wraps to 0 after the largest `uint`. */
  function Tick(t: Time): (r: Time)
    ensures r == (t + 1) % 0x1_0000_0000
  {
    if t == 0xFFFF_FFFF then 0 else t + 1
  }

  /** The way a miss replaces: the least recently used one, the lowest index on ties. */
  function LruWay(ways: seq<ReaderBranch>): (w: nat)
    requires |ways| > 0
    ensures w < |ways|
    ensures forall i :: 0 <= i < |ways| ==> ways[w].lruTime <= ways[i].lruTime
    ensures forall i :: 0 <= i < w ==> ways[i].lruTime > ways[w].lruTime
  {
    if |ways| == 1 then 0
    else
      var w := LruWay(ways[..|ways| - 1]);
      assert forall i :: 0 <= i < |ways| - 1 ==> ways[..|ways| - 1][i] == ways[i];
      if ways[|ways| - 1].lruTime < ways[w].lruTime then |ways| - 1 else w
  }

  /** The line after an update: a hit re-stamps its way, a miss overwrites the LRU way. */
  function Remembered(ways: seq<ReaderBranch>, b: ReaderBranch, correct: bool, index: int, now: Time): (r: seq<ReaderBranch>)
    requires |ways| > 0 && (correct ==> 0 <= index < |ways|)
    ensures |r| == |ways|
  {
    if correct then ways[index := ways[index].(lruTime := now)]
    else ways[LruWay(ways) := b.(lruTime := now)]
  }

  /** A hit changes only the time of its way; a miss puts the branch in the LRU way only. */
  lemma RememberedChanges(ways: seq<ReaderBranch>, b: ReaderBranch, correct: bool, index: int, now: Time)
    requires |ways| > 0 && (correct ==> 0 <= index < |ways|)
    ensures var r := Remembered(ways, b, correct, index, now);
      && |r| == |ways|
      && (correct ==> r[index].Equal(ways[index], false) && r[index].lruTime == now)
      && (!correct ==> r[LruWay(ways)].Equal(b, false) && r[LruWay(ways)].lruTime == now)
      && forall i :: 0 <= i < |ways| && i != (if correct then index else LruWay(ways)) ==> r[i] == ways[i]
  {
  }

  function BlankLine(): seq<ReaderBranch> {
    seq(BRANCH_MEMORY_ASSOCIATIVITY_SIZE, _ => BLANK)
  }

  /** The way a hit names: a byte of 8 or more (the stack predicted the target) names way `byte - 8`. */
  function WayOf(inputByte: int): (way: int)
    requires 0 <= inputByte < 2 * BRANCH_MEMORY_ASSOCIATIVITY_SIZE
    ensures 0 <= way < BRANCH_MEMORY_ASSOCIATIVITY_SIZE && way == inputByte % BRANCH_MEMORY_ASSOCIATIVITY_SIZE
  {
    if inputByte >= BRANCH_MEMORY_ASSOCIATIVITY_SIZE then inputByte - BRANCH_MEMORY_ASSOCIATIVITY_SIZE else inputByte
  }

  /**
   * The branch a hit decodes from way `entry`: a copy of it, whose target a return takes
   * from the return-address stack (`popped`, corrected by the escape) when the record says
   * the stack predicted it.
   */
  function Recalled(entry: ReaderBranch, popped: bv32, returnAddressStackCorrect: bool, offBy2: bool, offBy3: bool): ReaderBranch {
    var r := Make(entry.code, entry.address, entry.targetAddress, entry.taken);
    if entry.code == RETURN_CODE && returnAddressStackCorrect then r.(targetAddress := Adjusted(popped, offBy2, offBy3))
    else r
  }

  /**
   * The `equal` check that follows a hit always holds: the copy matches its way, on the
   * target too unless the stack predicted it. So that check never ends the decoding.
   */
  lemma RecalledMatches(entry: ReaderBranch, popped: bv32, returnAddressStackCorrect: bool, offBy2: bool, offBy3: bool)
    ensures Recalled(entry, popped, returnAddressStackCorrect, offBy2, offBy3).Equal(entry, returnAddressStackCorrect)
    ensures !returnAddressStackCorrect || entry.code != RETURN_CODE ==>
      Recalled(entry, popped, returnAddressStackCorrect, offBy2, offBy3).Equal(entry, false)
  {
  }

  // ---------------------------------------------------------------------------
  // The return-address stack, as a sequence whose first element is the top.

  /** The stack after pushing `a` onto `contents`: a full stack drops the push. */
  function Pushed(contents: seq<bv32>, a: bv32): seq<bv32> {
    if |contents| < RETURN_ADDRESS_STACK_SIZE then [a] + contents else contents
  }

  /** The value a pop gives: the top, or 0 from an empty stack. */
  function Top(contents: seq<bv32>): bv32 {
    if |contents| > 0 then contents[0] else 0
  }

  /** The stack after a pop. */
  function Popped(contents: seq<bv32>): (r: seq<bv32>)
    ensures |r| == if |contents| > 0 then |contents| - 1 else 0
  {
    if |contents| > 0 then contents[1..] else []
  }

  /** A pop undoes a push that was not dropped: the pushed address comes back and the stack is as before. */
  lemma PopPushed(contents: seq<bv32>, a: bv32)
    requires |contents| < RETURN_ADDRESS_STACK_SIZE
    ensures Top(Pushed(contents, a)) == a && Popped(Pushed(contents, a)) == contents
  {
  }

  /** Whether a miss of a return keeps the stack: its target is the popped address, or 2 above it, or 3 below it (in 32 bits). */
  predicate StackAgrees(popped: bv32, target: bv32) {
    popped == target || popped == target - 2 || popped == target + 3
  }

  /**
   * The stack after a return record `record` with target `target`: a hit pops it when the
   * record byte says the stack predicted the target and empties it otherwise; a miss pops
   * it when the popped address agrees with the target and empties it otherwise.
   */
  function AfterReturn(contents: seq<bv32>, record: int, target: bv32): seq<bv32> {
    if record < 2 * BRANCH_MEMORY_ASSOCIATIVITY_SIZE then
      (if record >= BRANCH_MEMORY_ASSOCIATIVITY_SIZE then Popped(contents) else [])
    else if StackAgrees(Top(contents), target) then Popped(contents) else []
  }

  /** Each escape of a hit agrees with the stack test of a miss: a target the stack corrects by +2 or -3 keeps the stack. */
  lemma AdjustedAgrees(popped: bv32, offBy2: bool, offBy3: bool)
    ensures StackAgrees(popped, Adjusted(popped, offBy2, offBy3))
  {
  }

  /** `(uint)code & 15`: the low nibble of a record code. */
  function Opcode(code: Byte): (op: bv32)
    ensures op as int == code % 16
  {
    (code % 16) as bv32
  }

  /**
   * The branch a decoded record gives: none outside the classes 1 to 7; otherwise the
   * class's flags, the low nibble as opcode, and the direction, cleared for class 2.
   */
  function BranchOf(b: ReaderBranch): Option<Branch> {
    var cls := b.code / 16;
    match ClassFlags(cls)
    case None => None
    case Some(flags) => Some(Branch(BranchInfo(b.address, Opcode(b.code), flags), b.taken && cls != 2, b.targetAddress))
  }

  /** What a record's branch means: its class's flags, its opcode, and class 2 never taken. */
  lemma BranchOfClass(b: ReaderBranch)
    ensures BranchOf(b).Some? <==> 0x10 <= b.code < 0x80
    ensures BranchOf(b).Some? ==>
      && Some(BranchOf(b).value.info.branchFlags) == ClassFlags(b.code / 16)
      && BranchOf(b).value.info.opcode as int == b.code - b.code / 16 * 16
      && BranchOf(b).value.info.address == b.address && BranchOf(b).value.targetAddress == b.targetAddress
      && (BranchOf(b).value.taken <==> b.taken && b.code / 16 != 2)
      && (IsConditional(BranchOf(b).value.info) <==> b.code < 0x30)
  {
    ClassFlagsCases(b.code / 16);
  }

  /** Whether a record is a call (class 5) or an indirect call (class 6). */
  predicate IsCall(b: ReaderBranch) {
    b.code / 16 == 5 || b.code / 16 == 6
  }

  /** The address a call pushes: 5 bytes past a call, 2 past an indirect call, in 32 bits. */
  function ReturnAddress(b: ReaderBranch): bv32 {
    if b.code / 16 == 5 then b.address + 5 else b.address + 2
  }

  class CBP2Reader {
    /** The decompressed trace and the number of bytes read from it. */
    var input: seq<Byte>
    var position: nat
    var numberOfBranches: int

    const returnAddressStack: array<bv32>
    var returnAddressStackTop: int
    /** The branch memory: 2^16 lines of 8 ways. */
    var branchesMemory: seq<seq<ReaderBranch>>
    var now: Time
    /** The target of `lastReaderBranch`, which selects the next memory line. */
    var lastTarget: bv32
    /** Whether `lastReaderBranch` is the very object a miss stored in the memory. */
    var lastStored: bool
    const classMisspredicted: array<int>

    ghost predicate Valid()
      reads this, returnAddressStack, classMisspredicted
    {
      && returnAddressStack.Length == RETURN_ADDRESS_STACK_SIZE
      && 0 <= returnAddressStackTop <= RETURN_ADDRESS_STACK_SIZE
      && classMisspredicted.Length == 8
      && MemoryShape(branchesMemory)
      && position <= |input|
    }

    /** The return-address stack, most recent push first. */
    ghost function RasContents(): seq<bv32>
      reads this`returnAddressStackTop, returnAddressStack
      requires 0 <= returnAddressStackTop <= returnAddressStack.Length
    {
      returnAddressStack[returnAddressStackTop..]
    }

    /**
     * A new reader: an all-blank memory and a zeroed stack array whose top is 0, so the
     * stack counts as full until a trace is opened. No trace is open: nothing to read.
     */
    constructor ()
      ensures Valid() && fresh(returnAddressStack) && fresh(classMisspredicted)
      ensures input == [] && position == 0 && numberOfBranches == 0
      ensures returnAddressStackTop == 0 && |RasContents()| == RETURN_ADDRESS_STACK_SIZE
      ensures now == 0 && lastTarget == 0 && !lastStored
      ensures branchesMemory == BlankMemory()
      ensures classMisspredicted[..] == [0, 0, 0, 0, 0, 0, 0, 0]
    {
      input := [];
      position := 0;
      numberOfBranches := 0;
      returnAddressStack := new bv32[RETURN_ADDRESS_STACK_SIZE](_ => 0);
      returnAddressStackTop := 0;
      branchesMemory := BlankMemory();
      now := 0;
      lastTarget := 0;
      lastStored := false;
      classMisspredicted := new int[8](_ => 0);
    }

    /** `getNumberOfBranches`: the branches returned since the trace was opened. */
    function GetNumberOfBranches(): int
      reads this
    {
      numberOfBranches
    }

    /**
     * `openTrace`: `file` is the decompressed trace, or none when it cannot be opened.
     * On success every way is cleared, the counters are zeroed and the stack emptied.
     * Clearing the ways also clears the last branch when a miss stored it there.
     */
    method OpenTrace(file: Option<seq<Byte>>) returns (ok: bool)
      requires Valid()
      modifies this, classMisspredicted
      ensures Valid()
      ensures ok <==> file.Some?
      ensures !ok ==> unchanged(this) && unchanged(classMisspredicted)
      ensures ok ==> input == file.value && position == 0 && numberOfBranches == 0
      ensures ok ==> branchesMemory == BlankMemory()
      ensures ok ==> classMisspredicted[..] == [0, 0, 0, 0, 0, 0, 0, 0]
      ensures ok ==> RasContents() == [] && now == 0
      ensures ok ==> lastTarget == (if old(lastStored) then 0 else old(lastTarget))
    {
      if file.None? {
        return false;
      }
      input := file.value;
      position := 0;
      numberOfBranches := 0;
      ClearMemory();
      if lastStored {
        lastTarget := 0;
      }
      ClearClassCounts();
      InitReturnAddressStack();
      now := 0;
      return true;
    }

    /** The clearing loop of `openTrace`: every way of every line becomes blank. */
    method ClearMemory()
      requires MemoryShape(branchesMemory)
      modifies this`branchesMemory
      ensures branchesMemory == BlankMemory()
    {
      var i := 0;
      while i < BRANCH_MEMORY_NUMBER_OF_LINES
        invariant 0 <= i <= BRANCH_MEMORY_NUMBER_OF_LINES
        invariant |branchesMemory| == BRANCH_MEMORY_NUMBER_OF_LINES
        invariant forall k :: 0 <= k < i ==> branchesMemory[k] == BlankLine()
      {
        branchesMemory := branchesMemory[i := BlankLine()];
        i := i + 1;
      }
    }

    /** The loop of `openTrace` that zeroes the per-class miss counts. */
    method ClearClassCounts()
      requires classMisspredicted.Length == 8
      modifies classMisspredicted
      ensures classMisspredicted[..] == [0, 0, 0, 0, 0, 0, 0, 0]
    {
      var c := 0;
      while c < 8
        invariant 0 <= c <= 8
        invariant forall k :: 0 <= k < c ==> classMisspredicted[k] == 0
      {
        classMisspredicted[c] := 0;
        c := c + 1;
      }
    }

    /** `initReturnAddressStack`: the stack becomes empty. */
    method InitReturnAddressStack()
      requires returnAddressStack.Length == RETURN_ADDRESS_STACK_SIZE
      modifies this`returnAddressStackTop
      ensures 0 <= returnAddressStackTop <= returnAddressStack.Length && RasContents() == []
    {
      returnAddressStackTop := RETURN_ADDRESS_STACK_SIZE;
    }

    /** `pushReturnAddressStack`: `a` goes on top unless the stack is full. */
    method PushReturnAddressStack(a: bv32)
      requires returnAddressStack.Length == RETURN_ADDRESS_STACK_SIZE
      requires 0 <= returnAddressStackTop <= RETURN_ADDRESS_STACK_SIZE
      modifies this`returnAddressStackTop, returnAddressStack
      ensures 0 <= returnAddressStackTop <= RETURN_ADDRESS_STACK_SIZE
      ensures RasContents() == Pushed(old(RasContents()), a)
    {
      ghost var before := returnAddressStack[returnAddressStackTop..];
      if returnAddressStackTop != 0 {
        returnAddressStackTop := returnAddressStackTop - 1;
        returnAddressStack[returnAddressStackTop] := a;
        assert returnAddressStack[returnAddressStackTop + 1..] == before;
        assert returnAddressStack[returnAddressStackTop..] == [a] + before;
      }
    }

    /** `popReturnAddressStack`: the top element, removed; 0 from an empty stack. */
    method PopReturnAddressStack() returns (popped: bv32)
      requires returnAddressStack.Length == RETURN_ADDRESS_STACK_SIZE
      requires 0 <= returnAddressStackTop <= RETURN_ADDRESS_STACK_SIZE
      modifies this`returnAddressStackTop
      ensures 0 <= returnAddressStackTop <= RETURN_ADDRESS_STACK_SIZE
      ensures popped == Top(old(RasContents())) && RasContents() == Popped(old(RasContents()))
    {
      if returnAddressStackTop < RETURN_ADDRESS_STACK_SIZE {
        popped := returnAddressStack[returnAddressStackTop];
        returnAddressStackTop := returnAddressStackTop + 1;
      } else {
        popped := 0;
      }
    }

    /** `ReadByte`: the next byte, or -1 at the end of the stream. */
    method ReadByte() returns (b: int)
      requires position <= |input|
      modifies this`position
      ensures position <= |input| && -1 <= b < 0x100
      ensures old(position) < |input| ==> b == input[old(position)] && position == old(position) + 1
      ensures old(position) == |input| ==> b == -1 && position == old(position)
    {
      if position < |input| {
        b := input[position];
        position := position + 1;
      } else {
        b := -1;
      }
    }

    /** `readUint`: the next four bytes as a little-endian word; past the end, -1 bytes. */
    method ReadUint() returns (w: bv32)
      requires position <= |input|
      modifies this`position
      ensures old(position) <= position <= |input|
      ensures old(position) + 4 <= |input| ==> position == old(position) + 4
      ensures old(position) + 4 <= |input| ==> w == WordAt(input, old(position))
    {
      var x0 := ReadByte();
      var x1 := ReadByte();
      var x2 := ReadByte();
      var x3 := ReadByte();
      w := LittleEndian(AsUint(x0), AsUint(x1), AsUint(x2), AsUint(x3));
    }

    /** `updateRemember`: stamps or replaces a way of line `line`, and remembers the branch. */
    method UpdateRemember(readerBranch: ReaderBranch, line: nat, correct: bool, index: int)
      requires MemoryShape(branchesMemory) && line < BRANCH_MEMORY_NUMBER_OF_LINES
      requires correct ==> 0 <= index < BRANCH_MEMORY_ASSOCIATIVITY_SIZE
      modifies this`branchesMemory, this`now, this`lastTarget, this`lastStored
      ensures MemoryShape(branchesMemory)
      ensures branchesMemory == old(branchesMemory[line := Remembered(branchesMemory[line], readerBranch, correct, index, now)])
      ensures now == Tick(old(now))
      ensures lastTarget == readerBranch.targetAddress && lastStored == !correct
    {
      var ways := branchesMemory[line];
      if correct {
        ways := ways[index := ways[index].(lruTime := now)];
      } else {
        var lru := 0;
        var i := 1;
        while i < BRANCH_MEMORY_ASSOCIATIVITY_SIZE
          invariant 1 <= i <= BRANCH_MEMORY_ASSOCIATIVITY_SIZE && 0 <= lru < i
          invariant lru == LruWay(ways[..i])
        {
          assert ways[..i + 1][..i] == ways[..i];
          if ways[i].lruTime < ways[lru].lruTime {
            lru := i;
          }
          i := i + 1;
        }
        assert ways[..i] == ways;
        ways := ways[lru := readerBranch.(lruTime := now)];
      }
      MemoryShapeUpdate(branchesMemory, line, ways);
      branchesMemory := branchesMemory[line := ways];
      now := Tick(now);
      lastTarget := readerBranch.targetAddress;
      lastStored := !correct;
    }

    /**
     * The start of a record in `getNextBranch`: the byte after an optional count prefix and
     * an optional escape, with the escape seen; -1 when the decoding ends there, at the end
     * of the stream or on a top-bit byte that is no escape.
     */
    method ReadRecordByte() returns (inputByte: int, offBy2: bool, offBy3: bool)
      requires position <= |input|
      modifies this`position
      ensures old(position) <= position <= |input|
      ensures -1 <= inputByte < 0x100 && !(offBy2 && offBy3)
      ensures old(position) == |input| ==> inputByte == -1
      ensures inputByte >= 0 ==> old(position) < position
      ensures inputByte >= 0x80 ==> offBy2 || offBy3
    {
      offBy2, offBy3 := false, false;
      inputByte := ReadByte();
      if inputByte < 0 {
        return;
      }
      if inputByte == 0x87 {
        // The instruction count that follows is read and ignored.
        var x := ReadByte();
        if x < 0 {
          return -1, false, false;
        }
        var y := ReadByte();
        if y < 0 {
          return -1, false, false;
        }
        inputByte := ReadByte();
        if inputByte < 0 {
          return;
        }
      }
      if inputByte >= 0x80 {
        if inputByte == 0x82 {
          offBy2 := true;
        } else if inputByte == 0x83 {
          offBy3 := true;
        } else {
          return -1, false, false;
        }
        inputByte := ReadByte();
      }
    }

    /**
     * A hit in `getNextBranch`: way `WayOf(inputByte)` of line `line` repeats, a return pops
     * the stack and takes its target from there when `inputByte >= 8`, and the way is re-stamped.
     */
    method DecodeHit(line: nat, inputByte: int, offBy2: bool, offBy3: bool) returns (readerBranch: ReaderBranch)
      requires Valid() && line < BRANCH_MEMORY_NUMBER_OF_LINES && 0 <= inputByte < 2 * BRANCH_MEMORY_ASSOCIATIVITY_SIZE
      modifies this`returnAddressStackTop, this`branchesMemory, this`now, this`lastTarget, this`lastStored
      ensures Valid()
      ensures var way := WayOf(inputByte);
        && readerBranch == Recalled(old(branchesMemory[line][way]), Top(old(RasContents())), inputByte >= BRANCH_MEMORY_ASSOCIATIVITY_SIZE, offBy2, offBy3)
        && branchesMemory == old(branchesMemory[line := Remembered(branchesMemory[line], readerBranch, true, way, now)])
      ensures now == Tick(old(now)) && lastTarget == readerBranch.targetAddress && !lastStored
      ensures readerBranch.code != RETURN_CODE ==> returnAddressStackTop == old(returnAddressStackTop)
      ensures readerBranch.code == RETURN_CODE ==>
        RasContents() == if inputByte >= BRANCH_MEMORY_ASSOCIATIVITY_SIZE then Popped(old(RasContents())) else []
    {
      var returnAddressStackCorrect := inputByte >= BRANCH_MEMORY_ASSOCIATIVITY_SIZE;
      var way := WayOf(inputByte);
      var entry := branchesMemory[line][way];
      ghost var popped := Top(RasContents());
      readerBranch := Make(entry.code, entry.address, entry.targetAddress, entry.taken);
      if readerBranch.code == RETURN_CODE {
        var top := PopReturnAddressStack();
        if returnAddressStackCorrect {
          readerBranch := readerBranch.(targetAddress := Adjusted(top, offBy2, offBy3));
        } else {
          InitReturnAddressStack();
        }
      }
      assert readerBranch == Recalled(entry, popped, returnAddressStackCorrect, offBy2, offBy3);
      RecalledMatches(entry, popped, returnAddressStackCorrect, offBy2, offBy3);
      UpdateRemember(readerBranch, line, true, way);
    }

    /**
     * A miss in `getNextBranch`: the address and target follow as words, the branch is taken,
     * a return pops the stack and keeps the rest only when the popped address agrees with
     * the target, and the branch replaces the least recently used way of line `line`.
     */
    method DecodeMiss(line: nat, inputByte: int) returns (readerBranch: ReaderBranch)
      requires Valid() && line < BRANCH_MEMORY_NUMBER_OF_LINES && 2 * BRANCH_MEMORY_ASSOCIATIVITY_SIZE <= inputByte < 0x100
      modifies this`position, this`returnAddressStackTop, this`branchesMemory, this`now, this`lastTarget, this`lastStored
      ensures Valid()
      ensures readerBranch.code == inputByte && readerBranch.taken && readerBranch.lruTime == 0
      ensures old(position) <= position
      ensures old(position) + 8 <= |input| ==> position == old(position) + 8
      ensures old(position) + 8 <= |input| ==>
        readerBranch.address == WordAt(input, old(position)) && readerBranch.targetAddress == WordAt(input, old(position) + 4)
      ensures branchesMemory == old(branchesMemory[line := Remembered(branchesMemory[line], readerBranch, false, -1, now)])
      ensures now == Tick(old(now)) && lastTarget == readerBranch.targetAddress && lastStored
      ensures inputByte != RETURN_CODE ==> returnAddressStackTop == old(returnAddressStackTop)
      ensures inputByte == RETURN_CODE ==>
        RasContents() == if StackAgrees(Top(old(RasContents())), readerBranch.targetAddress) then Popped(old(RasContents())) else []
    {
      var address := ReadUint();
      var target := ReadUint();
      readerBranch := Make(inputByte, address, target, true);
      if readerBranch.code == RETURN_CODE {
        var popped := PopReturnAddressStack();
        if !StackAgrees(popped, target) {
          InitReturnAddressStack();
        }
      }
      UpdateRemember(readerBranch, line, false, -1);
    }

    /** The hit or the miss that a record byte below or from 16 decodes to; only a return touches the stack. */
    method DecodeRecord(line: nat, inputByte: int, offBy2: bool, offBy3: bool) returns (readerBranch: ReaderBranch)
      requires Valid() && line < BRANCH_MEMORY_NUMBER_OF_LINES && 0 <= inputByte < 0x100
      modifies this`position, this`returnAddressStackTop, this`branchesMemory, this`now, this`lastTarget, this`lastStored
      ensures Valid() && old(position) <= position
      ensures var hit := inputByte < 2 * BRANCH_MEMORY_ASSOCIATIVITY_SIZE;
        branchesMemory == old(branchesMemory[line := Remembered(branchesMemory[line], readerBranch, hit,
                                                                  if hit then WayOf(inputByte) else -1, now)])
      ensures now == Tick(old(now)) && lastTarget == readerBranch.targetAddress
      ensures lastStored <==> inputByte >= 2 * BRANCH_MEMORY_ASSOCIATIVITY_SIZE
      ensures inputByte < 2 * BRANCH_MEMORY_ASSOCIATIVITY_SIZE ==>
        readerBranch == Recalled(old(branchesMemory[line][WayOf(inputByte)]), Top(old(RasContents())),
                                 inputByte >= BRANCH_MEMORY_ASSOCIATIVITY_SIZE, offBy2, offBy3)
      ensures inputByte >= 2 * BRANCH_MEMORY_ASSOCIATIVITY_SIZE ==>
        readerBranch.code == inputByte && readerBranch.taken && readerBranch.lruTime == 0
      ensures inputByte >= 2 * BRANCH_MEMORY_ASSOCIATIVITY_SIZE && old(position) + 8 <= |input| ==>
        && position == old(position) + 8
        && readerBranch.address == WordAt(input, old(position))
        && readerBranch.targetAddress == WordAt(input, old(position) + 4)
      ensures readerBranch.code != RETURN_CODE ==> returnAddressStackTop == old(returnAddressStackTop)
      ensures readerBranch.code == RETURN_CODE ==>
        RasContents() == AfterReturn(old(RasContents()), inputByte, readerBranch.targetAddress)
    {
      if inputByte < 2 * BRANCH_MEMORY_ASSOCIATIVITY_SIZE {
        readerBranch := DecodeHit(line, inputByte, offBy2, offBy3);
      } else {
        readerBranch := DecodeMiss(line, inputByte);
      }
    }

    /** `classMisspredicted[cls]++` for a miss, skipping a class outside the array (see `CountMissAsWritten`). */
    method CountClassMiss(cls: int)
      requires classMisspredicted.Length == 8
      modifies classMisspredicted
      ensures classMisspredicted[..] == CountMiss(old(classMisspredicted[..]), cls)
    {
      ghost var counts := CountMiss(classMisspredicted[..], cls);
      if 0 <= cls < 8 {
        classMisspredicted[cls] := classMisspredicted[cls] + 1;
      }
      assert classMisspredicted[..] == counts;
    }

    /** The calls of the switch in `getNextBranch` push their return address (see `ReturnAddress`). */
    method PushReturnAddressOf(readerBranch: ReaderBranch)
      requires returnAddressStack.Length == RETURN_ADDRESS_STACK_SIZE
      requires 0 <= returnAddressStackTop <= RETURN_ADDRESS_STACK_SIZE
      modifies this`returnAddressStackTop, returnAddressStack
      ensures 0 <= returnAddressStackTop <= RETURN_ADDRESS_STACK_SIZE
      ensures IsCall(readerBranch) ==> RasContents() == Pushed(old(RasContents()), ReturnAddress(readerBranch))
      ensures !IsCall(readerBranch) ==> RasContents() == old(RasContents())
    {
      if IsCall(readerBranch) {
        PushReturnAddressStack(ReturnAddress(readerBranch));
      }
    }

    /**
     * The end of `getNextBranch`: a miss is counted under its class, the class gives the
     * branch (see `BranchOf`), and a call pushes the address after it;
     * a returned branch is counted.
     */
    method Classify(readerBranch: ReaderBranch, correct: bool) returns (result: Option<Branch>)
      requires Valid()
      modifies this`numberOfBranches, this`returnAddressStackTop, returnAddressStack, classMisspredicted
      ensures Valid()
      ensures result == BranchOf(readerBranch)
      ensures numberOfBranches == old(numberOfBranches) + (if result.Some? then 1 else 0)
      ensures !correct ==> classMisspredicted[..] == CountMiss(old(classMisspredicted[..]), readerBranch.code / 16)
      ensures correct ==> classMisspredicted[..] == old(classMisspredicted[..])
      ensures IsCall(readerBranch) ==> RasContents() == Pushed(old(RasContents()), ReturnAddress(readerBranch))
      ensures !IsCall(readerBranch) ==> RasContents() == old(RasContents())
    {
      var cls := readerBranch.code / 16;
      if !correct {
        CountClassMiss(cls);
      }
      var flags := ClassFlags(cls);
      if flags.None? {
        return None;
      }
      var taken := readerBranch.taken;
      if cls == 2 {
        taken := false;
      }
      PushReturnAddressOf(readerBranch);
      numberOfBranches := numberOfBranches + 1;
      result := Some(Branch(BranchInfo(readerBranch.address, Opcode(readerBranch.code), flags.value), taken, readerBranch.targetAddress));
    }

    /**
     * The decoding part of `getNextBranch`: `decoded` is the branch the record decodes to,
     * none at the end of the stream or for a top-bit byte that is no escape; `record` is
     * the record byte, `offBy2`/`offBy3` the escape before it and `recordEnd` the position
     * after it.
     */
    method ReadRecord() returns (decoded: Option<ReaderBranch>, record: int, ghost offBy2: bool, ghost offBy3: bool,
                                 ghost recordEnd: nat)
      requires Valid()
      modifies this`position, this`returnAddressStackTop, this`branchesMemory, this`now, this`lastTarget, this`lastStored
      ensures Valid() && old(position) <= position
      ensures old(position) == |input| ==> decoded.None? && position == old(position)
      ensures decoded.None? ==> unchanged(this`returnAddressStackTop, this`branchesMemory, this`now, this`lastTarget, this`lastStored)
      ensures decoded.Some? ==> 0 <= record < 0x100 && old(position) < recordEnd <= position
      // The record is decoded against the line the previous branch's target selects, and
      // that line remembers it.
      ensures decoded.Some? ==>
        var line := old(lastTarget) as int % BRANCH_MEMORY_NUMBER_OF_LINES;
        var hit := record < 2 * BRANCH_MEMORY_ASSOCIATIVITY_SIZE;
        && (hit ==> decoded.value == Recalled(old(branchesMemory)[line][WayOf(record)], Top(old(RasContents())),
                                              record >= BRANCH_MEMORY_ASSOCIATIVITY_SIZE, offBy2, offBy3))
        && branchesMemory == old(branchesMemory)[line := Remembered(old(branchesMemory)[line], decoded.value, hit,
                                                                      if hit then WayOf(record) else -1, old(now))]
      ensures decoded.Some? ==>
        now == Tick(old(now)) && lastTarget == decoded.value.targetAddress &&
        (lastStored <==> record >= 2 * BRANCH_MEMORY_ASSOCIATIVITY_SIZE)
      ensures decoded.Some? && record >= 2 * BRANCH_MEMORY_ASSOCIATIVITY_SIZE ==>
        decoded.value.code == record && decoded.value.taken
      ensures decoded.Some? && record >= 2 * BRANCH_MEMORY_ASSOCIATIVITY_SIZE && recordEnd + 8 <= |input| ==>
        && position == recordEnd + 8
        && decoded.value.address == WordAt(input, recordEnd)
        && decoded.value.targetAddress == WordAt(input, recordEnd + 4)
      ensures decoded.Some? <==> record >= 0
      ensures decoded.Some? && decoded.value.code != RETURN_CODE ==> RasContents() == old(RasContents())
      ensures decoded.Some? && decoded.value.code == RETURN_CODE ==>
        RasContents() == AfterReturn(old(RasContents()), record, decoded.value.targetAddress)
    {
      ghost var stack := RasContents();
      var inputByte, escapedBy2, escapedBy3 := ReadRecordByte();
      record, offBy2, offBy3, recordEnd := inputByte, escapedBy2, escapedBy3, position;
      if inputByte < 0 {
        return None, record, offBy2, offBy3, recordEnd;
      }
      // `predictRemember`: the line the previous branch's target selects.
      var line := lastTarget as int % BRANCH_MEMORY_NUMBER_OF_LINES;
      var readerBranch := DecodeRecord(line, inputByte, escapedBy2, escapedBy3);
      if readerBranch.code != RETURN_CODE {
        assert RasContents() == stack;
      }
      decoded := Some(readerBranch);
    }

    /**
     * `getNextBranch`: decodes one record (see `ReadRecord`) and classifies it. It gives no
     * branch at the end of the stream, for a top-bit byte that is no escape, and for a class
     * outside 1 to 7; only a returned branch is counted. `hit` tells whether the record
     * repeats a remembered branch.
     */
    method GetNextBranch() returns (result: Option<Branch>, ghost decoded: ReaderBranch, ghost hit: bool,
                                    ghost record: int, ghost offBy2: bool, ghost offBy3: bool, ghost recordEnd: nat)
      requires Valid()
      modifies this, returnAddressStack, classMisspredicted
      ensures Valid()
      ensures input == old(input) && old(position) <= position
      ensures old(position) == |input| ==> result.None? && position == old(position)
      // No record: nothing but the position changes.
      ensures record < 0 ==>
        && result.None? && numberOfBranches == old(numberOfBranches)
        && branchesMemory == old(branchesMemory) && now == old(now) && lastTarget == old(lastTarget)
        && lastStored == old(lastStored) && classMisspredicted[..] == old(classMisspredicted[..])
        && RasContents() == old(RasContents())
      // A record is decoded, remembered and classified, whether or not its class gives a branch.
      ensures record >= 0 ==> record < 0x100 && old(position) < recordEnd <= position && old(position) < position
      ensures record >= 0 ==> (hit <==> record < 2 * BRANCH_MEMORY_ASSOCIATIVITY_SIZE)
      ensures record >= 0 ==>
        var line := old(lastTarget) as int % BRANCH_MEMORY_NUMBER_OF_LINES;
        && (hit ==> decoded == Recalled(old(branchesMemory)[line][WayOf(record)], Top(old(RasContents())),
                                        record >= BRANCH_MEMORY_ASSOCIATIVITY_SIZE, offBy2, offBy3))
        && branchesMemory == old(branchesMemory)[line := Remembered(old(branchesMemory)[line], decoded, hit,
                                                                      if hit then WayOf(record) else -1, old(now))]
      ensures record >= 0 ==> now == Tick(old(now)) && lastTarget == decoded.targetAddress && lastStored == !hit
      ensures record >= 0 && !hit ==> decoded.code == record && decoded.taken
      ensures record >= 0 && !hit && recordEnd + 8 <= |input| ==>
        && position == recordEnd + 8
        && decoded.address == WordAt(input, recordEnd)
        && decoded.targetAddress == WordAt(input, recordEnd + 4)
      ensures record >= 0 ==> result == BranchOf(decoded)
      ensures numberOfBranches == old(numberOfBranches) + (if result.Some? then 1 else 0)
      ensures record >= 0 && hit ==> classMisspredicted[..] == old(classMisspredicted[..])
      ensures record >= 0 && !hit ==> classMisspredicted[..] == CountMiss(old(classMisspredicted[..]), decoded.code / 16)
      // Only calls and returns touch the return-address stack.
      ensures record >= 0 && IsCall(decoded) ==> RasContents() == Pushed(old(RasContents()), ReturnAddress(decoded))
      ensures record >= 0 && decoded.code == RETURN_CODE ==>
        RasContents() == AfterReturn(old(RasContents()), record, decoded.targetAddress)
      ensures record >= 0 && !IsCall(decoded) && decoded.code != RETURN_CODE ==> RasContents() == old(RasContents())
    {
      var next, inputByte;
      next, inputByte, offBy2, offBy3, recordEnd := ReadRecord();
      record := inputByte;
      if next.None? {
        return None, BLANK, false, record, offBy2, offBy3, recordEnd;
      }
      var readerBranch := next.value;
      var correct := inputByte < 2 * BRANCH_MEMORY_ASSOCIATIVITY_SIZE;
      decoded, hit := readerBranch, correct;
      if readerBranch.code / 16 != RETURN_CODE / 16 {
        assert readerBranch.code != RETURN_CODE;
      }
      result := Classify(readerBranch, correct);
    }
  }

  /** Every line of the memory has eight ways. */
  ghost predicate MemoryShape(memory: seq<seq<ReaderBranch>>) {
    && |memory| == BRANCH_MEMORY_NUMBER_OF_LINES
    && forall i :: 0 <= i < |memory| ==> |memory[i]| == BRANCH_MEMORY_ASSOCIATIVITY_SIZE
  }

  /** The memory after the clearing loop of `openTrace`. */
  function BlankMemory(): (m: seq<seq<ReaderBranch>>)
    ensures MemoryShape(m)
  {
    seq(BRANCH_MEMORY_NUMBER_OF_LINES, _ => BlankLine())
  }

  lemma MemoryShapeUpdate(memory: seq<seq<ReaderBranch>>, line: nat, ways: seq<ReaderBranch>)
    requires MemoryShape(memory) && line < |memory| && |ways| == BRANCH_MEMORY_ASSOCIATIVITY_SIZE
    ensures MemoryShape(memory[line := ways])
  {
  }
}
