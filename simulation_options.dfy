/**
 * The per-session simulation options: whether only conditional branches count, how
 * many branches to skip, and whether the run is remote-only. Options travel to servers
 * serialized; the serialized form holds only the first two.
 */
module SimulationOptionsModel {

  /** The three option values of a `SimulationOptions` object. */
  datatype OptionsValue = OptionsValue(
    conditionalOnly: bool,
    numberOfBranchesToSkip: int,
    remoteExecutionOnly: bool)

  /** What `GetObjectData` writes: `conditionalOnly` and `nrBranchesToSkip`. */
  datatype SerializedOptions = SerializedOptions(conditionalOnly: bool, nrBranchesToSkip: int)

  /** The field initialisers, also the static `defaultOptions`. */
  const Defaults := OptionsValue(true, 0, false)

  function Serialize(v: OptionsValue): (d: SerializedOptions)
    ensures d.conditionalOnly == v.conditionalOnly && d.nrBranchesToSkip == v.numberOfBranchesToSkip
  {
    SerializedOptions(v.conditionalOnly, v.numberOfBranchesToSkip)
  }

  /** The serialization constructor: the two stored values, and remote-only forced off. */
  function Deserialize(d: SerializedOptions): (v: OptionsValue)
    ensures !v.remoteExecutionOnly
  {
    OptionsValue(d.conditionalOnly, d.nrBranchesToSkip, false)
  }

  /** A round trip keeps everything but the remote-only flag, which comes back false. */
  lemma RoundTrip(v: OptionsValue)
    ensures Deserialize(Serialize(v)) == v.(remoteExecutionOnly := false)
    ensures Deserialize(Serialize(v)) == v <==> !v.remoteExecutionOnly
  {
  }

  /** The serialized form is recovered exactly from its deserialization. */
  lemma SerializedRoundTrip(d: SerializedOptions)
    ensures Serialize(Deserialize(d)) == d
  {
  }

  class SimulationOptions {
    var conditionalOnly: bool
    var numberOfBranchesToSkip: int
    var remoteExecutionOnly: bool

    function Value(): OptionsValue
      reads this
    {
      OptionsValue(conditionalOnly, numberOfBranchesToSkip, remoteExecutionOnly)
    }

    constructor ()
      ensures Value() == Defaults
    {
      conditionalOnly := true;
      numberOfBranchesToSkip := 0;
      remoteExecutionOnly := false;
    }

    constructor FromSerialized(d: SerializedOptions)
      ensures Value() == Deserialize(d)
    {
      conditionalOnly := d.conditionalOnly;
      numberOfBranchesToSkip := d.nrBranchesToSkip;
      remoteExecutionOnly := false;
    }

    function GetObjectData(): (d: SerializedOptions)
      reads this
      ensures d == Serialize(Value())
    {
      SerializedOptions(conditionalOnly, numberOfBranchesToSkip)
    }

    /** A new object holding the same three values. */
    method GetCopy() returns (copy: SimulationOptions)
      ensures fresh(copy) && copy.Value() == Value()
    {
      copy := new SimulationOptions();
      copy.conditionalOnly := conditionalOnly;
      copy.numberOfBranchesToSkip := numberOfBranchesToSkip;
      copy.remoteExecutionOnly := remoteExecutionOnly;
    }

    method SetConditionalOnly(value: bool)
      modifies this`conditionalOnly
      ensures Value() == old(Value()).(conditionalOnly := value)
    {
      conditionalOnly := value;
    }

    method SetNumberOfBranchesToSkip(value: int)
      modifies this`numberOfBranchesToSkip
      ensures Value() == old(Value()).(numberOfBranchesToSkip := value)
    {
      numberOfBranchesToSkip := value;
    }

    method SetRemoteExecutionOnly(value: bool)
      modifies this`remoteExecutionOnly
      ensures Value() == old(Value()).(remoteExecutionOnly := value)
    {
      remoteExecutionOnly := value;
    }
  }
}
