/**
 * The `simulate_Click` handlers of the two front ends: collect the predictor
 * configurations, register the selected benchmarks and the configurations in the
 * result matrix, and fill the job queue predictor-major.
 */
module FrontEnd {
  import opened Wrappers
  import opened BenchmarkStatistics
  import opened PredictorInfoPool
  import opened PredictorEnumeration
  import opened ResultsDictionary
  import opened BenchmarkInfoModel
  import opened Sequences
  import opened Text
  import opened RunSetup

  /** A predictor type of the list: its properties' names and the values read from the UI. */
  datatype PredictorType = PredictorType(
    typeFullName: string, displayName: string,
    propertyNames: seq<string>, propertyValues: seq<seq<Argument>>, isChecked: bool)

  ghost predicate WellFormedType(t: PredictorType) {
    |t.propertyNames| == |t.propertyValues|
  }

  function RequestsOf(t: PredictorType): Result<seq<SerializedPredictorInfo>, string>
    requires WellFormedType(t)
  {
    PredictorRequests(t.typeFullName, t.displayName, t.propertyNames, t.propertyValues)
  }

  /** Compare mode: the configurations of every checked type, in list order. */
  function CheckedRequests(types: seq<PredictorType>): Result<seq<SerializedPredictorInfo>, string>
    requires forall t :: t in types ==> WellFormedType(t)
  {
    if |types| == 0 then Success([])
    else
      var front := CheckedRequests(types[..|types| - 1]);
      var last := types[|types| - 1];
      if front.Failure? then front
      else if !last.isChecked then front
      else
        var r := RequestsOf(last);
        if r.Failure? then Failure(r.error) else Success(front.value + r.value)
  }

  function Names(s: seq<string>): (b: seq<BenchmarkInfo>)
    ensures |b| == |s| && forall i :: 0 <= i < |s| ==> b[i] == BenchmarkInfo(s[i])
  {
    if |s| == 0 then [] else Names(s[..|s| - 1]) + [BenchmarkInfo(s[|s| - 1])]
  }

  const NoTracesMessage := "(no traces selected)"
  /** The single-type front end's own wording of the same message. */
  const GAgNoTracesMessage := "(nu ati selectat niciun trace)"
  const NoPredictorsMessage := "(no predictors selected)"

  function StartingMessage(jobs: nat, predictors: nat): string {
    "Starting " + NatText(jobs) + " simulations on " + NatText(predictors) + " predictor versions"
  }

  /** The main front end: one type or, in compare mode, every checked type. */
  method CollectRequests(compareMode: bool, selected: nat, types: seq<PredictorType>)
    returns (r: Result<seq<SerializedPredictorInfo>, string>)
    requires selected < |types| && forall t :: t in types ==> WellFormedType(t)
    ensures r == if compareMode then CheckedRequests(types) else RequestsOf(types[selected])
  {
    if !compareMode {
      var t := types[selected];
      assert t in types;
      r := GetPredictorRequests(t.typeFullName, t.displayName, t.propertyNames, t.propertyValues);
      return;
    }
    var requests: seq<SerializedPredictorInfo> := [];
    var k := 0;
    while k < |types|
      invariant 0 <= k <= |types|
      invariant CheckedRequests(types[..k]) == Success(requests)
    {
      assert types[..k + 1][..k] == types[..k];
      var t := types[k];
      assert t in types;
      if t.isChecked {
        var more := GetPredictorRequests(t.typeFullName, t.displayName, t.propertyNames, t.propertyValues);
        if more.Failure? {
          assert CheckedRequests(types[..k + 1]) == Failure(more.error);
          CheckedFailureSticks(types, k + 1);
          assert types[..|types|] == types;
          return Failure(more.error);
        }
        requests := requests + more.value;
      }
      k := k + 1;
    }
    assert types[..k] == types;
    r := Success(requests);
  }

  /** Once a checked type fails, the whole compare-mode request fails with that error. */
  lemma {:induction false} CheckedFailureSticks(types: seq<PredictorType>, k: nat)
    requires k <= |types| && forall t :: t in types ==> WellFormedType(t)
    requires CheckedRequests(types[..k]).Failure?
    ensures CheckedRequests(types) == CheckedRequests(types[..k])
    decreases |types| - k
  {
    if k < |types| {
      assert types[..k + 1][..k] == types[..k];
      CheckedFailureSticks(types, k + 1);
    } else {
      assert types[..k] == types;
    }
  }

  class MainWindow {
    const dictionary: SimulationResultsDictionary<PredictorKey, BenchmarkInfo>
    var simulationQueue: seq<Job>
    var displayedResults: seq<DisplayEntry>

    constructor (dictionary: SimulationResultsDictionary<PredictorKey, BenchmarkInfo>)
      ensures this.dictionary == dictionary && simulationQueue == [] && displayedResults == []
    {
      this.dictionary := dictionary;
      simulationQueue := [];
      displayedResults := [];
    }

    /**
     * `simulate_Click` once the configurations are known: the selected traces are given
     * per kind (Stanford, SPEC2000, CBP2) in list order.
     */
    method SimulateClick(requests: seq<SerializedPredictorInfo>,
                         stanford: seq<string>, spec2000: seq<string>, cbp2: seq<string>)
      requires dictionary.Valid()
      modifies this, dictionary
      ensures dictionary.Valid()
      ensures |stanford + spec2000 + cbp2| == 0 ==>
        displayedResults == old(displayedResults) + [Message(NoTracesMessage)]
        && simulationQueue == old(simulationQueue) && unchanged(dictionary)
      ensures |stanford + spec2000 + cbp2| > 0 && |requests| == 0 ==>
        displayedResults == old(displayedResults) + [Message(NoPredictorsMessage)]
        && simulationQueue == old(simulationQueue) && unchanged(dictionary)
      ensures |stanford + spec2000 + cbp2| > 0 && |requests| > 0 ==>
        var benchmarks := Names(stanford + spec2000 + cbp2);
        simulationQueue == Jobs(requests, Distinct(benchmarks))
        && displayedResults == old(displayedResults)
             + [Message(StartingMessage(|requests| * |Distinct(benchmarks)|, |requests|))]
             + PredictorEntries(requests)
        && RunStarted(dictionary, benchmarks, KeysOf(requests)) && fresh(dictionary.resultMatrix)
    {
      var names := stanford + spec2000 + cbp2;
      if |names| == 0 {
        displayedResults := displayedResults + [Message(NoTracesMessage)];
        return;
      }
      if |requests| == 0 {
        displayedResults := displayedResults + [Message(NoPredictorsMessage)];
        return;
      }
      var benchmarks := Names(names);
      var queue := BuildQueue(requests, Distinct(benchmarks));
      JobsSize(requests, Distinct(benchmarks));
      simulationQueue := queue;
      displayedResults := displayedResults + [Message(StartingMessage(|queue|, |requests|))]
        + PredictorEntries(requests);
      // The entries shown are the ones registration hands back.
      var shown := StartRun(dictionary, requests, benchmarks, true);
      assert displayedResults == old(displayedResults) + [Message(StartingMessage(|queue|, |requests|))] + shown;
    }
  }

  class GAgWindow {
    const dictionary: SimulationResultsDictionary<PredictorKey, BenchmarkInfo>
    var simulationQueue: seq<Job>
    var displayedResults: seq<DisplayEntry>

    constructor (dictionary: SimulationResultsDictionary<PredictorKey, BenchmarkInfo>)
      ensures this.dictionary == dictionary && simulationQueue == [] && displayedResults == []
    {
      this.dictionary := dictionary;
      simulationQueue := [];
      displayedResults := [];
    }

    /**
     * The single-type front end's `simulate_Click`: only Stanford traces, no check for
     * an empty configuration list, no progress messages.
     */
    method SimulateClick(requests: seq<SerializedPredictorInfo>, traces: seq<string>)
      requires dictionary.Valid()
      modifies this, dictionary
      ensures dictionary.Valid()
      ensures |traces| == 0 ==>
        displayedResults == old(displayedResults) + [Message(GAgNoTracesMessage)]
        && simulationQueue == old(simulationQueue) && unchanged(dictionary)
      ensures |traces| > 0 ==>
        var benchmarks := Names(traces);
        simulationQueue == Jobs(requests, Distinct(benchmarks))
        && displayedResults == old(displayedResults) + CollectionEntries(requests)
        && RunStarted(dictionary, benchmarks, KeysOf(requests)) && fresh(dictionary.resultMatrix)
    {
      if |traces| == 0 {
        displayedResults := displayedResults + [Message(GAgNoTracesMessage)];
        return;
      }
      var benchmarks := Names(traces);
      var queue := BuildQueue(requests, Distinct(benchmarks));
      simulationQueue, displayedResults := queue, displayedResults + CollectionEntries(requests);
      // The entries shown are the ones registration hands back.
      var shown := StartRun(dictionary, requests, benchmarks, false);
      assert displayedResults == old(displayedResults) + shown;
    }
  }
}
