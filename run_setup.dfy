/**
 * Setting up a run in the result matrix: the keys the dictionary registers, the job
 * queue, and the `Clear` / `addBenchmark` / `addPredictor` / `initialize` sequence both
 * front ends perform once their inputs are accepted.
 */
module RunSetup {
  import opened Wrappers
  import opened BenchmarkStatistics
  import opened PredictorInfoPool
  import opened ResultsDictionary
  import opened BenchmarkInfoModel
  import opened Sequences

  /** What `PredictorInfo.Equals` compares: the type name and the arguments. */
  datatype PredictorKey = PredictorKey(typeFullName: string, arguments: seq<Argument>)

  function KeyOf(info: SerializedPredictorInfo): PredictorKey {
    PredictorKey(info.predictorTypeFullName, info.arguments)
  }

  function KeysOf(requests: seq<SerializedPredictorInfo>): (keys: seq<PredictorKey>)
    ensures |keys| == |requests| && forall i :: 0 <= i < |requests| ==> keys[i] == KeyOf(requests[i])
  {
    if |requests| == 0 then [] else KeysOf(requests[..|requests| - 1]) + [KeyOf(requests[|requests| - 1])]
  }

  /**
   * The index map left by `addBenchmark`/`addPredictor` over `s`, in order: the counter
   * advances for every call, and a key keeps the index of its first occurrence.
   */
  function Registered<T(==,!new)>(s: seq<T>): (m: map<T, int>)
    ensures m.Keys == set x | x in s
  {
    if |s| == 0 then map[]
    else
      var front := Registered(s[..|s| - 1]);
      if s[|s| - 1] in front then front else front[s[|s| - 1] := |s| - 1]
  }

  /** Each key is registered at the position of its first occurrence. */
  lemma {:induction false} RegisteredAtFirstOccurrence<T(!new)>(s: seq<T>, x: T)
    requires x in s
    ensures 0 <= Registered(s)[x] < |s| && s[Registered(s)[x]] == x
    ensures forall i :: 0 <= i < Registered(s)[x] ==> s[i] != x
  {
    var front := s[..|s| - 1];
    if x in front {
      RegisteredAtFirstOccurrence(front, x);
    }
  }

  /** The jobs `(predictor, benchmark)`, predictor-major. */
  datatype Job = Job(predictor: SerializedPredictorInfo, benchmark: BenchmarkInfo)

  function Jobs(predictors: seq<SerializedPredictorInfo>, benchmarks: seq<BenchmarkInfo>): seq<Job> {
    if |predictors| == 0 then []
    else Jobs(predictors[..|predictors| - 1], benchmarks) + Row(predictors[|predictors| - 1], benchmarks)
  }

  function Row(predictor: SerializedPredictorInfo, benchmarks: seq<BenchmarkInfo>): (r: seq<Job>)
    ensures |r| == |benchmarks| && forall j :: 0 <= j < |benchmarks| ==> r[j] == Job(predictor, benchmarks[j])
  {
    if |benchmarks| == 0 then [] else Row(predictor, benchmarks[..|benchmarks| - 1]) + [Job(predictor, benchmarks[|benchmarks| - 1])]
  }

  lemma MultiplyMonotone(a: nat, b: nat, m: nat)
    requires a <= b
    ensures a * m <= b * m
  {
  }

  lemma MultiplySucc(a: nat, m: nat)
    ensures (a + 1) * m == a * m + m
  {
  }

  lemma {:induction false} JobsSize(predictors: seq<SerializedPredictorInfo>, benchmarks: seq<BenchmarkInfo>)
    ensures |Jobs(predictors, benchmarks)| == |predictors| * |benchmarks|
  {
    if |predictors| > 0 {
      JobsSize(predictors[..|predictors| - 1], benchmarks);
      MultiplySucc(|predictors| - 1, |benchmarks|);
    }
  }

  /** Job `i * |benchmarks| + j` runs predictor `i` on benchmark `j`. */
  lemma {:induction false} JobAt(predictors: seq<SerializedPredictorInfo>, benchmarks: seq<BenchmarkInfo>, i: nat, j: nat)
    requires i < |predictors| && j < |benchmarks|
    ensures i * |benchmarks| + j < |Jobs(predictors, benchmarks)|
    ensures Jobs(predictors, benchmarks)[i * |benchmarks| + j] == Job(predictors[i], benchmarks[j])
  {
    var m := |benchmarks|;
    var n := |predictors| - 1;
    var front := predictors[..n];
    JobsSize(front, benchmarks);
    JobsSize(predictors, benchmarks);
    if i < n {
      JobAt(front, benchmarks, i, j);
      MultiplySucc(i, m);
      MultiplyMonotone(i + 1, n, m);
    }
  }

  datatype DisplayEntry = Message(text: string) | Collection(collection: Option<seq<BenchmarkResult>>)

  /**
   * What the main front end shows per configuration: its description and its new
   * result list, or null when an equal configuration came earlier.
   */
  function PredictorEntries(requests: seq<SerializedPredictorInfo>): seq<DisplayEntry> {
    if |requests| == 0 then []
    else
      var front := requests[..|requests| - 1];
      var last := requests[|requests| - 1];
      PredictorEntries(front)
      + [Message("Simulation using " + last.description),
         Collection(if KeyOf(last) in KeysOf(front) then None else Some([]))]
  }

  /** What the single-type front end shows per configuration: only the result list. */
  function CollectionEntries(requests: seq<SerializedPredictorInfo>): seq<DisplayEntry> {
    if |requests| == 0 then []
    else
      var front := requests[..|requests| - 1];
      CollectionEntries(front)
      + [Collection(if KeyOf(requests[|requests| - 1]) in KeysOf(front) then None else Some([]))]
  }

  /** A dictionary just cleared and filled with the given benchmarks and predictors. */
  ghost predicate Registers(dictionary: SimulationResultsDictionary<PredictorKey, BenchmarkInfo>,
                            benchmarks: seq<BenchmarkInfo>, keys: seq<PredictorKey>)
    reads dictionary
  {
    dictionary.numberOfBenchmarks == |benchmarks| && dictionary.benchmarkIndexMap == Registered(benchmarks)
    && dictionary.numberOfPredictors == |keys| && dictionary.predictorIndexMap == Registered(keys)
    && dictionary.observableCollections == EmptyCollections(keys)
    && dictionary.valuesEntered == 0
  }

  function EmptyCollections(keys: seq<PredictorKey>): (m: map<PredictorKey, seq<BenchmarkResult>>)
    ensures m.Keys == set k | k in keys
    ensures forall k :: k in m ==> m[k] == []
  {
    if |keys| == 0 then map[] else EmptyCollections(keys[..|keys| - 1])[keys[|keys| - 1] := []]
  }

  /** One `addPredictor` call after the keys `keys`. */
  method AddOne(dictionary: SimulationResultsDictionary<PredictorKey, BenchmarkInfo>,
                benchmarks: seq<BenchmarkInfo>, keys: seq<PredictorKey>, key: PredictorKey)
    returns (collection: Option<seq<BenchmarkResult>>)
    requires dictionary.Valid() && Registers(dictionary, benchmarks, keys) && dictionary.resultMatrix == null
    modifies dictionary
    ensures dictionary.Valid() && Registers(dictionary, benchmarks, keys + [key]) && dictionary.resultMatrix == null
    ensures collection == if key in keys then None else Some([])
  {
    assert (keys + [key])[..|keys|] == keys;
    collection := dictionary.AddPredictor(key);
    if key in keys {
      assert EmptyCollections(keys)[key := []] == EmptyCollections(keys);
    }
  }

  /** `foreach (...) simulationResultsDictionary.addBenchmark(...)` after `Clear`. */
  method AddBenchmarks(dictionary: SimulationResultsDictionary<PredictorKey, BenchmarkInfo>,
                       benchmarks: seq<BenchmarkInfo>)
    requires dictionary.Valid() && Registers(dictionary, [], []) && dictionary.resultMatrix == null
    modifies dictionary
    ensures dictionary.Valid() && Registers(dictionary, benchmarks, []) && dictionary.resultMatrix == null
  {
    var k := 0;
    while k < |benchmarks|
      invariant 0 <= k <= |benchmarks|
      invariant dictionary.Valid() && Registers(dictionary, benchmarks[..k], []) && dictionary.resultMatrix == null
    {
      assert benchmarks[..k + 1][..k] == benchmarks[..k];
      dictionary.AddBenchmark(benchmarks[k]);
      k := k + 1;
    }
    assert benchmarks[..k] == benchmarks;
  }

  /** The job queue: every configuration against every registered benchmark. */
  method BuildQueue(requests: seq<SerializedPredictorInfo>, benchmarks: seq<BenchmarkInfo>)
    returns (queue: seq<Job>)
    ensures queue == Jobs(requests, benchmarks)
  {
    queue := [];
    var i := 0;
    while i < |requests|
      invariant 0 <= i <= |requests|
      invariant queue == Jobs(requests[..i], benchmarks)
    {
      assert requests[..i + 1][..i] == requests[..i];
      var j := 0;
      while j < |benchmarks|
        invariant 0 <= j <= |benchmarks|
        invariant queue == Jobs(requests[..i], benchmarks) + Row(requests[i], benchmarks[..j])
      {
        assert benchmarks[..j + 1][..j] == benchmarks[..j];
        queue := queue + [Job(requests[i], benchmarks[j])];
        j := j + 1;
      }
      assert benchmarks[..j] == benchmarks;
      i := i + 1;
    }
    assert requests[..i] == requests;
  }

  /** `foreach (...) simulationResultsDictionary.addPredictor(...)`, with what is shown. */
  method AddPredictors(dictionary: SimulationResultsDictionary<PredictorKey, BenchmarkInfo>,
                       benchmarks: seq<BenchmarkInfo>, requests: seq<SerializedPredictorInfo>,
                       withDescriptions: bool)
    returns (shown: seq<DisplayEntry>)
    requires dictionary.Valid() && Registers(dictionary, benchmarks, []) && dictionary.resultMatrix == null
    modifies dictionary
    ensures dictionary.Valid() && Registers(dictionary, benchmarks, KeysOf(requests)) && dictionary.resultMatrix == null
    ensures shown == if withDescriptions then PredictorEntries(requests) else CollectionEntries(requests)
  {
    shown := [];
    var k := 0;
    while k < |requests|
      invariant 0 <= k <= |requests|
      invariant dictionary.Valid() && Registers(dictionary, benchmarks, KeysOf(requests[..k]))
      invariant dictionary.resultMatrix == null
      invariant shown == if withDescriptions then PredictorEntries(requests[..k]) else CollectionEntries(requests[..k])
    {
      var front := requests[..k];
      assert requests[..k + 1][..k] == front;
      assert KeysOf(requests[..k + 1]) == KeysOf(front) + [KeyOf(requests[k])];
      var collection := AddOne(dictionary, benchmarks, KeysOf(front), KeyOf(requests[k]));
      if withDescriptions {
        shown := shown + [Message("Simulation using " + requests[k].description), Collection(collection)];
      } else {
        shown := shown + [Collection(collection)];
      }
      k := k + 1;
    }
    assert requests[..k] == requests;
  }

  /** The matrix state right after `initialize`: keys registered, every slot empty. */
  ghost predicate RunStarted(dictionary: SimulationResultsDictionary<PredictorKey, BenchmarkInfo>,
                             benchmarks: seq<BenchmarkInfo>, keys: seq<PredictorKey>)
    reads dictionary, dictionary.resultMatrix
  {
    Registers(dictionary, benchmarks, keys)
    && dictionary.resultMatrix != null
    && dictionary.resultMatrix.Length0 == |Registered(keys)|
    && dictionary.resultMatrix.Length1 == |Registered(benchmarks)|
    && forall i, j :: 0 <= i < dictionary.resultMatrix.Length0 && 0 <= j < dictionary.resultMatrix.Length1 ==>
         dictionary.resultMatrix[i, j] == None
  }

  /**
   * The common part of both handlers once the inputs are accepted: clear the matrix,
   * register the benchmarks, queue the jobs, register the configurations, allocate.
   */
  method StartRun(dictionary: SimulationResultsDictionary<PredictorKey, BenchmarkInfo>,
                  requests: seq<SerializedPredictorInfo>, benchmarks: seq<BenchmarkInfo>, withDescriptions: bool)
    returns (shown: seq<DisplayEntry>)
    requires dictionary.Valid()
    modifies dictionary
    ensures dictionary.Valid()
    ensures shown == if withDescriptions then PredictorEntries(requests) else CollectionEntries(requests)
    ensures RunStarted(dictionary, benchmarks, KeysOf(requests)) && fresh(dictionary.resultMatrix)
  {
    dictionary.Clear();
    AddBenchmarks(dictionary, benchmarks);
    shown := AddPredictors(dictionary, benchmarks, requests, withDescriptions);
    dictionary.Initialize();
  }

}
