/**
 * A predictor configuration (type name plus constructor arguments) together with the
 * pool of predictor instances built from it. Simulations running at the same time each
 * borrow an instance; a returned instance is reused by the next borrower.
 */
module PredictorInfoPool {
  import opened Wrappers

  /** The global options a configuration carries along; only the trace folder is used. */
  datatype ApplicationOptions = ApplicationOptions(tracePathMain: string)

  /** A boxed constructor argument; boxed values are `Equals` exactly when type and value agree. */
  datatype Argument = IntArgument(i: int) | UIntArgument(u: nat) | BoolArgument(b: bool)

  /**
   * The identity of a predictor object. Instances are compared by reference, so two
   * instances are the same exactly when their identities are.
   */
  type Instance = nat

  /** The three values written by `GetObjectData`. */
  datatype SerializedPredictorInfo = SerializedPredictorInfo(
    predictorTypeFullName: string,
    description: string,
    arguments: seq<Argument>)

  /** The index of the first free instance, or the pool size when every instance is busy. */
  function FirstFree(locked: seq<bool>): (f: nat)
    ensures f <= |locked|
    ensures forall k :: 0 <= k < f ==> locked[k]
    ensures f < |locked| ==> !locked[f]
  {
    if |locked| == 0 then 0
    else if !locked[0] then 0
    else 1 + FirstFree(locked[1..])
  }

  /** `List.IndexOf`: the first position holding `x`, or -1. */
  function IndexOf(s: seq<Instance>, x: Instance): (i: int)
    ensures -1 <= i < |s|
    ensures i == -1 <==> x !in s
    ensures 0 <= i ==> s[i] == x && forall k :: 0 <= k < i ==> s[k] != x
  {
    if |s| == 0 then -1
    else if s[0] == x then 0
    else
      var j := IndexOf(s[1..], x);
      if j == -1 then -1 else j + 1
  }

  /** The element-wise `Equals` loop over two argument arrays of the same length. */
  function ArgumentsEqual(a: seq<Argument>, b: seq<Argument>): (r: bool)
    requires |a| == |b|
    ensures r <==> forall i :: 0 <= i < |a| ==> a[i] == b[i]
  {
    if |a| == 0 then true
    else a[0] == b[0] && ArgumentsEqual(a[1..], b[1..])
  }

  /** C# `int` from an array length (lengths are below 2^31). */
  function LengthBits(n: nat): bv32 {
    (n % 0x1_0000_0000) as bv32
  }

  class PredictorInfo {
    const predictorTypeFullName: string
    const arguments: seq<Argument>
    const description: string
    const applicationOptions: Option<ApplicationOptions>

    var predictorInstances: seq<Instance>
    var predictorLocked: seq<bool>
    /** Every `reset()` call made on a handed-out instance, in order. */
    ghost var resetCalls: seq<Instance>

    /** The two lists stay parallel and every instance object appears once. */
    ghost predicate Valid()
      reads this
    {
      |predictorInstances| == |predictorLocked|
      && forall i, j :: 0 <= i < j < |predictorInstances| ==> predictorInstances[i] != predictorInstances[j]
    }

    constructor (predictorTypeFullName: string, description: string,
                 options: Option<ApplicationOptions>, constructorArgs: seq<Argument>)
      ensures Valid()
      ensures this.predictorTypeFullName == predictorTypeFullName && this.description == description
      ensures arguments == constructorArgs && applicationOptions == options
      ensures predictorInstances == [] && predictorLocked == [] && resetCalls == []
    {
      this.predictorTypeFullName := predictorTypeFullName;
      this.description := description;
      this.arguments := constructorArgs;
      this.applicationOptions := options;
      predictorInstances := [];
      predictorLocked := [];
      resetCalls := [];
    }

    /**
     * Deserialization restores the three serialized values; the application options
     * are not serialized and come back null, and the pool starts empty.
     */
    constructor FromSerialized(info: SerializedPredictorInfo)
      ensures Valid()
      ensures GetObjectData() == info
      ensures applicationOptions == None
      ensures predictorInstances == [] && predictorLocked == [] && resetCalls == []
    {
      predictorTypeFullName := info.predictorTypeFullName;
      description := info.description;
      arguments := info.arguments;
      applicationOptions := None;
      predictorInstances := [];
      predictorLocked := [];
      resetCalls := [];
    }

    function GetObjectData(): SerializedPredictorInfo {
      SerializedPredictorInfo(predictorTypeFullName, description, arguments)
    }

    /**
     * Type names equal and arguments pairwise `Equals`; the description and the
     * application options do not take part.
     */
    function Equals(other: PredictorInfo?): (b: bool)
      ensures b <==> other != null && other.predictorTypeFullName == predictorTypeFullName
                     && other.arguments == arguments
    {
      other != null && other.predictorTypeFullName == predictorTypeFullName
      && |other.arguments| == |arguments| && ArgumentsEqual(other.arguments, arguments)
    }

    /** The type name's hash XOR the argument count; `stringHash` is `String.GetHashCode`. */
    function GetHashCode(stringHash: string -> bv32): bv32 {
      stringHash(predictorTypeFullName) ^ LengthBits(|arguments|)
    }

    /**
     * Borrows an instance: the lowest-index free one is marked busy; when none is free
     * a new one is built (`created`, None when construction fails) and appended busy;
     * a failed construction returns null and leaves the pool as it was. The returned
     * instance is reset before it is handed out.
     */
    method GetPredictor(created: Option<Instance>) returns (predictor: Option<Instance>)
      requires Valid()
      requires created.Some? ==> created.value !in predictorInstances
      modifies this`predictorInstances, this`predictorLocked, this`resetCalls
      ensures Valid()
      ensures FirstFree(old(predictorLocked)) < |old(predictorLocked)| ==>
        var f := FirstFree(old(predictorLocked));
        predictor == Some(old(predictorInstances)[f])
        && predictorInstances == old(predictorInstances)
        && predictorLocked == old(predictorLocked)[f := true]
      ensures FirstFree(old(predictorLocked)) == |old(predictorLocked)| ==>
        predictor == created
        && (created.None? ==>
              predictorInstances == old(predictorInstances) && predictorLocked == old(predictorLocked))
        && (created.Some? ==>
              predictorInstances == old(predictorInstances) + [created.value]
              && predictorLocked == old(predictorLocked) + [true])
      ensures predictor.Some? ==>
        resetCalls == old(resetCalls) + [predictor.value]
        && predictor.value in predictorInstances
        && predictorLocked[IndexOf(predictorInstances, predictor.value)]
      ensures predictor.None? ==> resetCalls == old(resetCalls)
    {
      var i := 0;
      while i < |predictorLocked|
        invariant 0 <= i <= |predictorLocked|
        invariant forall k :: 0 <= k < i ==> predictorLocked[k]
      {
        if !predictorLocked[i] {
          break;
        }
        i := i + 1;
      }
      FirstFreeIsFirst(predictorLocked, i);
      if i < |predictorLocked| {
        predictorLocked := predictorLocked[i := true];
        predictor := Some(predictorInstances[i]);
        IndexOfDistinct(predictorInstances, i);
      } else {
        if created.None? {
          return None;
        }
        predictorInstances := predictorInstances + [created.value];
        predictorLocked := predictorLocked + [true];
        predictor := created;
        IndexOfDistinct(predictorInstances, |predictorInstances| - 1);
      }
      resetCalls := resetCalls + [predictor.value];
    }

    /**
     * Returns an instance: only its busy flag is cleared. An instance that is not in
     * the pool makes `IndexOf` return -1 and the list indexer throw (Failure).
     */
    method FreePredictor(predictor: Instance) returns (r: Result<(), string>)
      requires Valid()
      modifies this`predictorLocked
      ensures Valid()
      ensures predictor in predictorInstances ==>
        r.Success? && predictorLocked == old(predictorLocked)[IndexOf(predictorInstances, predictor) := false]
      ensures predictor !in predictorInstances ==> r.Failure? && predictorLocked == old(predictorLocked)
    {
      var index := IndexOf(predictorInstances, predictor);
      if index < 0 {
        return Failure("ArgumentOutOfRangeException");
      }
      predictorLocked := predictorLocked[index := false];
      r := Success(());
    }
  }

  /** A scan that stopped at `i` (all before busy, `i` free or the end) found `FirstFree`. */
  lemma {:induction false} FirstFreeIsFirst(locked: seq<bool>, i: nat)
    requires i <= |locked|
    requires forall k :: 0 <= k < i ==> locked[k]
    requires i < |locked| ==> !locked[i]
    ensures FirstFree(locked) == i
  {
    if i > 0 {
      FirstFreeIsFirst(locked[1..], i - 1);
    }
  }

  /** In a list without repeats, `IndexOf` finds an element at its own position. */
  lemma IndexOfDistinct(s: seq<Instance>, i: nat)
    requires i < |s|
    requires forall a, b :: 0 <= a < b < |s| ==> s[a] != s[b]
    ensures IndexOf(s, s[i]) == i
  {
  }

  /** `Equals` is an equivalence on configurations. */
  lemma EqualsIsEquivalence(a: PredictorInfo, b: PredictorInfo, c: PredictorInfo)
    ensures a.Equals(a)
    ensures a.Equals(b) ==> b.Equals(a)
    ensures a.Equals(b) && b.Equals(c) ==> a.Equals(c)
  {
  }

  /** Equal configurations hash equally, whatever the string hash. */
  lemma EqualsImpliesEqualHash(a: PredictorInfo, b: PredictorInfo, stringHash: string -> bv32)
    requires a.Equals(b)
    ensures a.GetHashCode(stringHash) == b.GetHashCode(stringHash)
  {
  }
}
