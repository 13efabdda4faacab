/**
 * One simulation job: borrow a predictor instance from the configuration's pool, open
 * the benchmark trace, and run predict / count / update over its branches until the
 * reader reports the end (null), then return the instance to the pool.
 *
 * The predictor behind the instance is given by its reset state and its two operations;
 * the trace is given as the reader's successive answers, None standing for null.
 */
module Simulator {
  import opened Wrappers
  import opened Branches
  import opened BenchmarkStatistics
  import opened PredictorInfoPool
  import opened SimulationOptionsModel

  /** The branches the loop sees: those before the reader's first null. */
  function BranchesBeforeEnd(trace: seq<Option<Branch>>): (n: nat)
    ensures n <= |trace|
    ensures forall k :: 0 <= k < n ==> trace[k].Some?
    ensures n < |trace| ==> trace[n].None?
  {
    if |trace| == 0 || trace[0].None? then 0 else 1 + BranchesBeforeEnd(trace[1..])
  }

  /** Correct and incorrect predictions of a run from predictor state `s`. */
  function Run<S>(predict: (S, BranchInfo) -> bool, update: (S, Branch) -> S, s: S,
                  trace: seq<Option<Branch>>): (counts: (nat, nat))
  {
    if |trace| == 0 || trace[0].None? then (0, 0)
    else
      var b := trace[0].value;
      var rest := Run(predict, update, update(s, b), trace[1..]);
      if b.taken == predict(s, b.info) then (rest.0 + 1, rest.1) else (rest.0, rest.1 + 1)
  }

  /** Every branch before the end is counted exactly once, as correct or as incorrect. */
  lemma {:induction false} RunCountsEveryBranch<S>(predict: (S, BranchInfo) -> bool,
                                                   update: (S, Branch) -> S, s: S,
                                                   trace: seq<Option<Branch>>)
    ensures Run(predict, update, s, trace).0 + Run(predict, update, s, trace).1
            == BranchesBeforeEnd(trace)
  {
    if |trace| > 0 && trace[0].Some? {
      RunCountsEveryBranch(predict, update, update(s, trace[0].value), trace[1..]);
    }
  }

  /** Nothing after the first null is ever read. */
  lemma {:induction false} RunIgnoresRest<S>(predict: (S, BranchInfo) -> bool,
                                             update: (S, Branch) -> S, s: S,
                                             trace: seq<Option<Branch>>, tail: seq<Option<Branch>>)
    ensures Run(predict, update, s, trace + [None] + tail) == Run(predict, update, s, trace + [None])
  {
    if |trace| > 0 {
      assert (trace + [None] + tail)[1..] == trace[1..] + [None] + tail;
      assert (trace + [None])[1..] == trace[1..] + [None];
      if trace[0].Some? {
        RunIgnoresRest(predict, update, update(s, trace[0].value), trace[1..], tail);
      }
    }
  }

  /** A predictor that always predicts the outcome is always right. */
  lemma {:induction false} PerfectPredictorAllCorrect<S>(predict: (S, BranchInfo) -> bool,
                                                         update: (S, Branch) -> S, s: S,
                                                         trace: seq<Option<Branch>>)
    requires forall t: S, k :: 0 <= k < |trace| && trace[k].Some? ==>
      predict(t, trace[k].value.info) == trace[k].value.taken
    ensures Run(predict, update, s, trace).1 == 0
  {
    if |trace| > 0 && trace[0].Some? {
      assert forall k :: 0 <= k < |trace[1..]| ==> trace[1..][k] == trace[k + 1];
      PerfectPredictorAllCorrect(predict, update, update(s, trace[0].value), trace[1..]);
    }
  }

  /** Null options stand for the defaults; the run itself never reads them. */
  function EffectiveOptions(simulationParameters: Option<OptionsValue>): (o: OptionsValue)
    ensures simulationParameters.None? ==> o == Defaults
    ensures simulationParameters.Some? ==> o == simulationParameters.value
  {
    simulationParameters.GetOr(Defaults)
  }

  /** `(double)correct / branches`: NaN for an empty run. */
  function AccuracyOf(correct: nat, branches: nat): (a: Accuracy)
    ensures branches == 0 <==> a.NaN?
    ensures branches > 0 && correct <= branches ==> 0.0 <= a.v <= 1.0
  {
    if branches == 0 then NaN else Value(correct as real / branches as real)
  }

  const PredictorProblem := " - Probleme de implementare la predictor."
  const TraceNotFound := " - Fisierul tra nu a fost gasit. Verificati calea sau daca fisierul se afla in cale."

  /** A result holding only a name: counts 0 and accuracy 0. */
  function ErrorResult(name: string): BenchmarkResult {
    BenchmarkResult(name, Value(0.0), 0, 0, 0)
  }

  /** The predict / count / update loop, from the reset state until the first null. */
  method RunTrace<S>(trace: seq<Option<Branch>>, reset: S,
                     predict: (S, BranchInfo) -> bool, update: (S, Branch) -> S)
    returns (correct: nat, incorrect: nat)
    ensures (correct, incorrect) == Run(predict, update, reset, trace)
    ensures correct + incorrect == BranchesBeforeEnd(trace)
  {
    correct, incorrect := 0, 0;
    var state := reset;
    var i := 0;
    while true
      invariant 0 <= i <= BranchesBeforeEnd(trace)
      invariant Run(predict, update, reset, trace)
             == (correct + Run(predict, update, state, trace[i..]).0,
                 incorrect + Run(predict, update, state, trace[i..]).1)
      decreases |trace| - i
    {
      var branch := if i < |trace| then trace[i] else None;
      if branch.None? {
        break;
      }
      var prediction := predict(state, branch.value.info);
      if branch.value.taken == prediction {
        correct := correct + 1;
      } else {
        incorrect := incorrect + 1;
      }
      assert trace[i..][1..] == trace[i + 1..];
      state := update(state, branch.value);
      i := i + 1;
    }
    RunCountsEveryBranch(predict, update, reset, trace);
  }

  /**
   * `Simulator.Call`. `created` is what constructing a new instance yields (None when
   * construction fails), `traceOpens` whether the Stanford reader opens the trace,
   * `reset` the predictor's state after `reset()`. `traceOpened` reports whether the
   * trace was opened at all. A failed open leaves the borrowed instance busy.
   */
  method Call<S>(predictorInfo: PredictorInfo, benchmarkName: string,
                 simulationParameters: Option<OptionsValue>,
                 created: Option<Instance>, traceOpens: bool, trace: seq<Option<Branch>>,
                 reset: S, predict: (S, BranchInfo) -> bool, update: (S, Branch) -> S)
    returns (result: BenchmarkResult, traceOpened: bool)
    requires predictorInfo.Valid()
    requires created.Some? ==> created.value !in predictorInfo.predictorInstances
    modifies predictorInfo`predictorInstances, predictorInfo`predictorLocked, predictorInfo`resetCalls
    ensures predictorInfo.Valid()
    ensures var free := FirstFree(old(predictorInfo.predictorLocked));
      var poolSize := |old(predictorInfo.predictorLocked)|;
      var borrowed := free < poolSize || created.Some?;
      (traceOpened <==> borrowed && traceOpens)
      && (!borrowed ==>
            result == ErrorResult(benchmarkName + PredictorProblem)
            && predictorInfo.predictorLocked == old(predictorInfo.predictorLocked))
      && (borrowed && !traceOpens ==> result == ErrorResult(benchmarkName + TraceNotFound))
      && (free < poolSize && !traceOpens ==>
            predictorInfo.predictorLocked == old(predictorInfo.predictorLocked)[free := true])
      && (free == poolSize && created.Some? && !traceOpens ==>
            predictorInfo.predictorLocked == old(predictorInfo.predictorLocked) + [true])
      && (free < poolSize && traceOpens ==>
            predictorInfo.predictorLocked == old(predictorInfo.predictorLocked))
      && (free == poolSize && created.Some? && traceOpens ==>
            predictorInfo.predictorLocked == old(predictorInfo.predictorLocked) + [false])
    ensures traceOpened ==>
      var counts := Run(predict, update, reset, trace);
      result == BenchmarkResult(benchmarkName, AccuracyOf(counts.0, counts.0 + counts.1),
                                counts.0 + counts.1, counts.0, counts.1)
      && result.numberOfBranches == BranchesBeforeEnd(trace)
  {
    var options := EffectiveOptions(simulationParameters);
    var predictor := predictorInfo.GetPredictor(created);
    if predictor.None? {
      return ErrorResult(benchmarkName + PredictorProblem), false;
    }
    if !traceOpens {
      return ErrorResult(benchmarkName + TraceNotFound), false;
    }
    traceOpened := true;
    var correct, incorrect := RunTrace(trace, reset, predict, update);
    var branches := correct + incorrect;
    result := BenchmarkResult(benchmarkName, AccuracyOf(correct, branches), branches, correct, incorrect);
    var freed := predictorInfo.FreePredictor(predictor.value);
  }
}
