/**
 * The Stanford trace reader. A Stanford trace is a text file with one branch per
 * line, in three space-separated fields: a two-letter kind (`B` first when the branch
 * was taken; then `T` or `F` for a conditional branch, `S` for a call, `M` for a
 * return), the branch address and the target address, both unsigned decimal numbers.
 *
 * The file is a parameter: its lines, or `None` when it cannot be opened.
 */
module Stanford {
  import opened Wrappers
  import opened Branches
  import opened Text
  import opened PropertyTypes

  // ---------------------------------------------------------------------------
  // One line.

  /** The fields of a line, as `line.Split(' ')` gives them. */
  function Fields(line: string): (fields: seq<string>)
    ensures |fields| >= 1
  {
    Split(line, ' ')
  }

  /** Lines of three fields or more are counted, whether or not they then parse. */
  predicate IsCounted(line: string) {
    |Fields(line)| >= 3
  }

  /** The flags the second letter of the kind stands for. */
  function KindFlags(kind: char): (flags: bv32)
    ensures flags == BR_CONDITIONAL <==> kind == 'T' || kind == 'F'
    ensures flags == BR_CALL <==> kind == 'S'
    ensures flags == BR_RETURN <==> kind == 'M'
    ensures flags == 0 <==> kind != 'T' && kind != 'F' && kind != 'S' && kind != 'M'
  {
    if kind == 'T' || kind == 'F' then BR_CONDITIONAL
    else if kind == 'S' then BR_CALL
    else if kind == 'M' then BR_RETURN
    else 0
  }

  /** A parsed `uint` as a bit pattern. */
  function Word(v: int): bv32
    requires 0 <= v <= UINT32_MAX
  {
    v as bv32
  }

  /**
   * The branch the fields of a line stand for. Any exception on the way (an unparsable
   * address or target, a kind shorter than two letters) makes the reader return null.
   */
  function DecodeFields(f: seq<string>): (r: Option<Branch>)
    ensures |f| < 3 ==> r.None?
    ensures r.Some? <==> |f| >= 3 && |f[0]| >= 2 && TryParse(UInt32, f[1]).Some? && TryParse(UInt32, f[2]).Some?
    ensures r.Some? ==> r.value.info.address == Word(TryParse(UInt32, f[1]).value) &&
                        r.value.targetAddress == Word(TryParse(UInt32, f[2]).value)
    ensures r.Some? ==> (r.value.taken <==> f[0][0] == 'B')
    ensures r.Some? ==> r.value.info.branchFlags == KindFlags(f[0][1]) && r.value.info.opcode == 0
  {
    if |f| < 3 then None
    else
      var address := TryParse(UInt32, f[1]);
      var target := TryParse(UInt32, f[2]);
      if address.None? || |f[0]| < 2 || target.None? then None
      else Some(Branch(BranchInfo(Word(address.value), 0, KindFlags(f[0][1])), f[0][0] == 'B', Word(target.value)))
  }

  /** The branch a line stands for. */
  function DecodeLine(line: string): Option<Branch> {
    DecodeFields(Fields(line))
  }

  /** How many of `lines` the reader counts. */
  function CountedLines(lines: seq<string>): (n: nat)
    ensures n <= |lines|
  {
    if |lines| == 0 then 0
    else CountedLines(lines[..|lines| - 1]) + if IsCounted(lines[|lines| - 1]) then 1 else 0
  }

  // ---------------------------------------------------------------------------
  // Writing a line back.

  /** The trace line of a branch: its two-letter kind, its address and its target. */
  function RecordLine(taken: bool, kind: char, address: nat, target: nat): (line: string)
    requires address <= UINT32_MAX && target <= UINT32_MAX
  {
    [if taken then 'B' else 'N', kind] + " " + NatText(address) + " " + NatText(target)
  }

  /** A string without the separator is one field. */
  lemma SplitPlain(s: string, c: char)
    requires c !in s
    ensures Split(s, c) == [s]
  {
    SplitAppendPlain("", s, c);
    assert "" + s == s;
  }

  lemma NoBlankInNumber(n: nat)
    ensures ' ' !in NatText(n)
  {
  }

  /** Three blank-free fields joined by blanks split back into those fields. */
  lemma {:induction false} ThreeFields(x: string, y: string, z: string)
    requires ' ' !in x && ' ' !in y && ' ' !in z
    ensures Fields(x + " " + y + " " + z) == [x, y, z]
  {
    SplitPlain(x, ' ');
    SplitAfterSeparator(x, y, ' ');
    assert x + " " + y == x + [' '] + y;
    SplitAfterSeparator(x + " " + y, z, ' ');
    assert x + " " + y + " " + z == (x + " " + y) + [' '] + z;
  }

  /** Reading a written line gives back the branch it was written from, and counts it. */
  lemma {:induction false} DecodeRecordLine(taken: bool, kind: char, address: nat, target: nat)
    requires address <= UINT32_MAX && target <= UINT32_MAX && kind != ' '
    ensures IsCounted(RecordLine(taken, kind, address, target))
    ensures DecodeLine(RecordLine(taken, kind, address, target)) ==
            Some(Branch(BranchInfo(Word(address), 0, KindFlags(kind)), taken, Word(target)))
  {
    var k := [if taken then 'B' else 'N', kind];
    NoBlankInNumber(address);
    NoBlankInNumber(target);
    ThreeFields(k, NatText(address), NatText(target));
    var f := Fields(RecordLine(taken, kind, address, target));
    assert f == [k, NatText(address), NatText(target)];
    TryParsePrinted(UInt32, address);
    TryParsePrinted(UInt32, target);
    assert TryParse(UInt32, f[1]) == Some(address as int);
    assert TryParse(UInt32, f[2]) == Some(target as int);
  }

  /** A line of three fields whose address does not parse is counted and still read as null. */
  lemma {:induction false} CountedButRejected(kind: string, address: string, target: string)
    requires ' ' !in kind && ' ' !in address && ' ' !in target
    requires TryParse(UInt32, address).None?
    ensures IsCounted(kind + " " + address + " " + target)
    ensures DecodeLine(kind + " " + address + " " + target) == None
  {
    ThreeFields(kind, address, target);
  }

  /** For instance a negative address. */
  lemma NegativeAddressRejected()
    ensures TryParse(UInt32, "-1").None?
  {
    UnsignedRejectsNegative(1);
    assert "-" + NatText(1) == "-1";
  }

  // ---------------------------------------------------------------------------
  // The reader.

  class StanfordReader {
    /** The lines of the open trace file. */
    var lines: seq<string>
    /** How many of them `ReadLine` has returned. */
    var lineIndex: nat
    /** Whether `streamReader` can be read: opened, and not closed by a failed open. */
    var hasStream: bool
    var numberOfBranches: int

    /** While a trace is open, the counter is the number of counted lines read from it. */
    ghost predicate Valid()
      reads this
    {
      lineIndex <= |lines| &&
      (hasStream ==> numberOfBranches == CountedLines(lines[..lineIndex]))
    }

    constructor ()
      ensures Valid() && !hasStream && numberOfBranches == 0
    {
      lines := [];
      lineIndex := 0;
      hasStream := false;
      numberOfBranches := 0;
    }

    /**
     * Opens the trace file. On success the counter restarts at 0 and reading starts at
     * the first line; on failure the counter is kept and the earlier stream is closed.
     */
    method OpenTrace(file: Option<seq<string>>) returns (ok: bool)
      requires Valid()
      modifies this
      ensures Valid()
      ensures ok <==> file.Some?
      ensures ok ==> lines == file.value && lineIndex == 0 && hasStream && numberOfBranches == 0
      ensures !ok ==> !hasStream && numberOfBranches == old(numberOfBranches)
      ensures !ok ==> lines == old(lines) && lineIndex == old(lineIndex)
    {
      if file.None? {
        hasStream := false;
        return false;
      }
      lines := file.value;
      lineIndex := 0;
      hasStream := true;
      numberOfBranches := 0;
      assert lines[..lineIndex] == [];
      return true;
    }

    /**
     * The branch of the next line, or `None` at the end of the file, without an open
     * stream, or when the line is not a well-formed branch. A line is consumed whenever
     * there is one, and counted when it has three fields or more.
     */
    method GetNextBranch() returns (r: Option<Branch>)
      requires Valid()
      modifies this
      ensures Valid()
      ensures lines == old(lines) && hasStream == old(hasStream)
      ensures !hasStream || old(lineIndex) == |lines| ==>
                r.None? && lineIndex == old(lineIndex) && numberOfBranches == old(numberOfBranches)
      ensures hasStream && old(lineIndex) < |lines| ==>
                lineIndex == old(lineIndex) + 1 && r == DecodeLine(lines[old(lineIndex)])
      ensures hasStream && old(lineIndex) < |lines| && IsCounted(lines[old(lineIndex)]) ==>
                numberOfBranches == old(numberOfBranches) + 1
      ensures hasStream && old(lineIndex) < |lines| && !IsCounted(lines[old(lineIndex)]) ==>
                numberOfBranches == old(numberOfBranches)
    {
      if !hasStream || lineIndex == |lines| {
        return None;
      }
      var line := lines[lineIndex];
      assert lines[..lineIndex + 1] == lines[..lineIndex] + [line];
      lineIndex := lineIndex + 1;
      var splitLine := Split(line, ' ');
      if |splitLine| < 3 {
        return None;
      }
      numberOfBranches := numberOfBranches + 1;
      assert numberOfBranches == CountedLines(lines[..lineIndex]);
      r := ParseFields(splitLine);
    }

    /** The parses and tests of one line of three fields or more; they change nothing of the reader. */
    static method ParseFields(splitLine: seq<string>) returns (r: Option<Branch>)
      requires |splitLine| >= 3
      ensures r == DecodeFields(splitLine)
    {
      var address := TryParse(UInt32, splitLine[1]);
      if address.None? {
        return None;
      }
      if |splitLine[0]| < 2 {
        return None;
      }
      var flags: bv32 := 0;
      if splitLine[0][1] == 'T' || splitLine[0][1] == 'F' {
        flags := flags | BR_CONDITIONAL;
      }
      if splitLine[0][1] == 'S' {
        flags := flags | BR_CALL;
      }
      if splitLine[0][1] == 'M' {
        flags := flags | BR_RETURN;
      }
      assert flags == KindFlags(splitLine[0][1]);
      var taken := splitLine[0][0] == 'B';
      var target := TryParse(UInt32, splitLine[2]);
      if target.None? {
        return None;
      }
      return Some(Branch(BranchInfo(Word(address.value), 0, flags), taken, Word(target.value)));
    }

    /**
     * The counter, in any state: 0 before the first open, the count kept by a failed
     * open, and while a trace is open the number of counted lines read from it.
     */
    method GetNumberOfBranches() returns (n: int)
      requires Valid()
      ensures n == numberOfBranches
      ensures hasStream ==> n == CountedLines(lines[..lineIndex])
    {
      return numberOfBranches;
    }
  }
}
