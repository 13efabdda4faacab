/**
 * The SPEC2000 trace reader. All SPEC2000 traces live in one gzip file, `traces.gz`;
 * trace number i is the i-th block of 4,000,000 decompressed bytes, and a block is a
 * run of 4-byte records. A record holds a branch address in its low 31 bits, little
 * endian, and the taken bit in the top bit of its fourth byte. Every branch of these
 * traces is conditional and its target is reported as its own address.
 *
 * The decompressed stream is a parameter (`None` when the file cannot be opened), and
 * so is the table of trace names, which may be missing (`None`) or hold missing
 * entries (`None`), as a C# array of strings can.
 */
module Spec2000 {
  import opened Wrappers
  import opened Branches

  /** A C# `byte`. */
  type Byte = bv8

  const BUFFER_SIZE := 4_000_000
  const NUMBER_OF_TRACES := 17
  const RECORD_SIZE := 4

  // ---------------------------------------------------------------------------
  // Finding a trace by name.

  /**
   * The index of the first of the names `i`, `i + 1`, ... (below 17) equal to
   * `filename`, or `None` when there is none or when the search runs into a missing
   * entry or past the end of the table first: both throw inside `openTrace`.
   */
  function NameIndexFrom(names: seq<Option<string>>, filename: string, i: nat): (r: Option<nat>)
    requires i <= NUMBER_OF_TRACES
    decreases NUMBER_OF_TRACES - i
    ensures r.Some? ==> i <= r.value < NUMBER_OF_TRACES && r.value < |names|
    ensures r.Some? ==> names[r.value] == Some(filename)
    ensures r.Some? ==> forall k :: i <= k < r.value ==> names[k].Some? && names[k].value != filename
    ensures r.None? && NUMBER_OF_TRACES <= |names| && (forall k :: i <= k < NUMBER_OF_TRACES ==> names[k].Some?)
            ==> forall k :: i <= k < NUMBER_OF_TRACES ==> names[k].value != filename
  {
    if i == NUMBER_OF_TRACES || i >= |names| || names[i].None? then None
    else if names[i].value == filename then Some(i)
    else NameIndexFrom(names, filename, i + 1)
  }

  /** The trace index `openTrace` settles on; a missing table throws at once. */
  function NameIndex(names: Option<seq<Option<string>>>, filename: string): (r: Option<nat>)
    ensures r.Some? ==> r.value < NUMBER_OF_TRACES
  {
    if names.None? then None else NameIndexFrom(names.value, filename, 0)
  }

  /** In a complete table, every one of the first 17 names is found, at its first occurrence. */
  lemma NameIndexFinds(names: seq<Option<string>>, filename: string, j: nat)
    requires NUMBER_OF_TRACES <= |names| && forall k :: 0 <= k < NUMBER_OF_TRACES ==> names[k].Some?
    requires j < NUMBER_OF_TRACES && names[j] == Some(filename)
    ensures NameIndex(Some(names), filename).Some?
    ensures NameIndex(Some(names), filename).value <= j
  {
  }

  // ---------------------------------------------------------------------------
  // Loading a trace into the buffer.

  /** What one `Read(buffer, 0, 4000000)` takes from the stream once `k` blocks are consumed. */
  function Chunk(data: seq<Byte>, k: nat): (c: seq<Byte>)
    ensures |c| <= BUFFER_SIZE
  {
    var from := if k * BUFFER_SIZE <= |data| then k * BUFFER_SIZE else |data|;
    var to := if from + BUFFER_SIZE <= |data| then from + BUFFER_SIZE else |data|;
    data[from..to]
  }

  /** A read overwrites the front of the buffer and leaves the rest as it was. */
  function Filled(buffer: seq<Byte>, c: seq<Byte>): (r: seq<Byte>)
    requires |c| <= |buffer|
    ensures |r| == |buffer|
  {
    c + buffer[|c|..]
  }

  /** The buffer after the first `count` blocks were read into it one after the other. */
  function AfterReads(buffer: seq<Byte>, data: seq<Byte>, count: nat): (r: seq<Byte>)
    requires |buffer| == BUFFER_SIZE
    ensures |r| == BUFFER_SIZE
  {
    if count == 0 then buffer
    else Filled(AfterReads(buffer, data, count - 1), Chunk(data, count - 1))
  }

  /** When the stream holds trace `index` in full, the buffer ends up holding exactly that block. */
  lemma LoadedTrace(buffer: seq<Byte>, data: seq<Byte>, index: nat)
    requires |buffer| == BUFFER_SIZE && (index + 1) * BUFFER_SIZE <= |data|
    ensures AfterReads(buffer, data, index + 1) == data[index * BUFFER_SIZE..(index + 1) * BUFFER_SIZE]
  {
    var c := Chunk(data, index);
    assert |c| == BUFFER_SIZE;
    assert AfterReads(buffer, data, index + 1) == c + AfterReads(buffer, data, index)[BUFFER_SIZE..];
  }

  // ---------------------------------------------------------------------------
  // Records.

  /**
   * The address of record `a b c d`, assembled as the reader does: `d` without its top
   * bit, then `c`, `b` and `a`, each shifted in from the right, masked to 31 bits.
   */
  function RecordAddress(a: Byte, b: Byte, c: Byte, d: Byte): (address: bv32)
    ensures address < 0x8000_0000
    ensures address == (a as bv32) | ((b as bv32) << 8) | ((c as bv32) << 16) | (((d & 0x7F) as bv32) << 24)
  {
    var high := if d >= 0x80 then d - 0x80 else d;
    var withC := ((high as bv32) << 8) | c as bv32;
    var withB := (withC << 8) | b as bv32;
    var withA := (withB << 8) | a as bv32;
    withA & 0x7FFF_FFFF
  }

  /** The branch a record stands for: conditional, opcode 0, target equal to the address. */
  function RecordBranch(a: Byte, b: Byte, c: Byte, d: Byte): (br: Branch)
    ensures br.info.address == RecordAddress(a, b, c, d)
    ensures br.taken <==> d >= 0x80
    ensures br.info.branchFlags == BR_CONDITIONAL && br.info.opcode == 0
    ensures br.targetAddress == br.info.address
  {
    var address := RecordAddress(a, b, c, d);
    Branch(BranchInfo(address, 0, BR_CONDITIONAL), d >= 0x80, address)
  }

  /** The record that encodes a branch at `address` (below 2^31) with the given outcome. */
  function RecordBytes(address: bv32, taken: bool): (bytes: seq<Byte>)
    requires address < 0x8000_0000
    ensures |bytes| == RECORD_SIZE
  {
    [(address & 0xFF) as Byte, ((address >> 8) & 0xFF) as Byte, ((address >> 16) & 0xFF) as Byte,
     ((address >> 24) as Byte) | (if taken then 0x80 else 0)]
  }

  /** Decoding an encoded record gives back the address and the outcome. */
  lemma DecodeRecordBytes(address: bv32, taken: bool)
    requires address < 0x8000_0000
    ensures var r := RecordBytes(address, taken);
      RecordAddress(r[0], r[1], r[2], r[3]) == address && (r[3] >= 0x80 <==> taken)
  {
  }

  /** Every 4-byte record is the encoding of the address and outcome read from it. */
  lemma EncodeRecordBytes(a: Byte, b: Byte, c: Byte, d: Byte)
    ensures RecordBytes(RecordAddress(a, b, c, d), d >= 0x80) == [a, b, c, d]
  {
  }

  // ---------------------------------------------------------------------------
  // The reader.

  class Spec2000Reader {
    const buffer: array<Byte>
    var bufferIndex: nat
    var numberOfBranches: int
    /** Whether `branch` has been created by a successful `openTrace`. */
    var isOpen: bool

    /** The read position stays on a record boundary inside the buffer and every record read is counted at most once. */
    ghost predicate Valid()
      reads this
    {
      buffer.Length == BUFFER_SIZE &&
      bufferIndex <= BUFFER_SIZE && bufferIndex % RECORD_SIZE == 0 &&
      0 <= numberOfBranches <= bufferIndex / RECORD_SIZE
    }

    constructor ()
      ensures Valid() && fresh(buffer)
      ensures bufferIndex == 0 && numberOfBranches == 0 && !isOpen
      ensures forall i :: 0 <= i < buffer.Length ==> buffer[i] == 0
    {
      buffer := new Byte[BUFFER_SIZE](_ => 0);
      bufferIndex := 0;
      numberOfBranches := 0;
      isOpen := false;
    }

    /** One `Read` of the decompressed stream into the front of the buffer. */
    method ReadChunk(data: seq<Byte>, k: nat)
      requires buffer.Length == BUFFER_SIZE
      modifies buffer
      ensures buffer[..] == Filled(old(buffer[..]), Chunk(data, k))
    {
      var c := Chunk(data, k);
      var j := 0;
      while j < |c|
        invariant 0 <= j <= |c|
        invariant forall m :: 0 <= m < j ==> buffer[m] == c[m]
        invariant forall m :: j <= m < buffer.Length ==> buffer[m] == old(buffer[m])
      {
        buffer[j] := c[j];
        j := j + 1;
      }
      assert buffer[..] == Filled(old(buffer[..]), c);
    }

    /**
     * Opens trace `filename`: looks it up among the first 17 names, resets the counter,
     * reads blocks 0 to the trace's index into the buffer and rewinds it. A name not
     * found and a stream that cannot be opened make it return false.
     */
    method OpenTrace(names: Option<seq<Option<string>>>, filename: string, traces: Option<seq<Byte>>)
      returns (ok: bool)
      requires Valid()
      modifies this, buffer
      ensures Valid()
      ensures ok <==> NameIndex(names, filename).Some? && traces.Some?
      ensures NameIndex(names, filename).None? ==> unchanged(this) && unchanged(buffer)
      ensures NameIndex(names, filename).Some? && traces.None? ==>
                numberOfBranches == 0 && bufferIndex == old(bufferIndex) && isOpen == old(isOpen) && unchanged(buffer)
      ensures ok ==> numberOfBranches == 0 && bufferIndex == 0 && isOpen
      ensures ok ==> buffer[..] == AfterReads(old(buffer[..]), traces.value, NameIndex(names, filename).value + 1)
    {
      if names.None? {
        return false;
      }
      var table := names.value;
      var fileIndex := -1;
      var i := 0;
      while i < NUMBER_OF_TRACES
        invariant 0 <= i <= NUMBER_OF_TRACES
        invariant fileIndex == -1 ==> NameIndex(names, filename) == NameIndexFrom(table, filename, i)
        invariant fileIndex != -1 ==> NameIndex(names, filename) == Some(fileIndex)
      {
        if i >= |table| || table[i].None? {
          return false;
        }
        if table[i].value == filename {
          fileIndex := i;
          break;
        }
        i := i + 1;
      }
      if fileIndex == -1 {
        return false;
      }
      numberOfBranches := 0;
      if traces.None? {
        return false;
      }
      var data := traces.value;
      for k := 0 to fileIndex + 1
        modifies buffer
        invariant buffer[..] == AfterReads(old(buffer[..]), data, k)
      {
        ReadChunk(data, k);
      }
      bufferIndex := 0;
      isOpen := true;
      return true;
    }

    /**
     * The next record of the buffer, or `None` once the whole block has been read;
     * each record read advances the position by 4 and the counter by one.
     */
    method GetNextBranch() returns (r: Option<Branch>)
      requires Valid() && isOpen
      modifies this
      ensures Valid() && isOpen
      ensures r.None? <==> old(bufferIndex) == BUFFER_SIZE
      ensures r.None? ==> bufferIndex == old(bufferIndex) && numberOfBranches == old(numberOfBranches)
      ensures r.Some? ==> bufferIndex == old(bufferIndex) + RECORD_SIZE
      ensures r.Some? ==> numberOfBranches == old(numberOfBranches) + 1
      ensures r.Some? ==> r.value == RecordBranch(buffer[old(bufferIndex)], buffer[old(bufferIndex) + 1],
                                                  buffer[old(bufferIndex) + 2], buffer[old(bufferIndex) + 3])
    {
      if bufferIndex == BUFFER_SIZE {
        return None;
      }
      var a := buffer[bufferIndex];
      var b := buffer[bufferIndex + 1];
      var c := buffer[bufferIndex + 2];
      var d := buffer[bufferIndex + 3];
      bufferIndex := bufferIndex + RECORD_SIZE;
      ghost var record := RecordBranch(a, b, c, d);
      var taken := false;
      if d >= 0x80 {
        d := d - 0x80;
        taken := true;
      }
      var address: bv32 := d as bv32;
      address := (address << 8) | c as bv32;
      address := (address << 8) | b as bv32;
      address := (address << 8) | a as bv32;
      address := address & 0x7FFF_FFFF;
      assert address == record.info.address;
      numberOfBranches := numberOfBranches + 1;
      return Some(Branch(BranchInfo(address, 0, BR_CONDITIONAL), taken, address));
    }

    /** The number of records returned since the last open; never more than the records consumed. */
    method GetNumberOfBranches() returns (n: int)
      requires Valid()
      ensures n == numberOfBranches
      ensures 0 <= n <= bufferIndex / RECORD_SIZE
    {
      return numberOfBranches;
    }
  }
}
