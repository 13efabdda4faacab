/**
 * The predictor x benchmark result matrix of the simulator front end: two key -> index
 * registries, a two-dimensional matrix whose slots are written once, a counter of the
 * values entered and, per predictor, the name-sorted list of its results.
 *
 * Keys are compared by value equality (predictor configurations by type name and
 * arguments, benchmarks by name), which is what the `Equals` overrides provide.
 */
module ResultsDictionary {
  import opened Wrappers
  import opened BenchmarkStatistics

  /** How `setResult` ends: a stored value (and whether `filled` fired) or the exception. */
  datatype SetOutcome =
    | Stored(filled: bool)
    | InvalidPredictor   // "Invalid predictor provided."
    | InvalidBenchmark   // "Invalid simulator provided."
    | NoMatrix           // `initialize` not called yet: the matrix is null
    | IndexOutOfRange    // key registered after the matrix was sized
    | NotSupported       // null value, or the slot was already written

  /** How `getResult` fails. */
  datatype GetError = UnknownPredictor | UnknownBenchmark | MatrixNull | OutOfRange

  // The written cells are counted on a ghost copy of the matrix, row by row.

  function RowCount(row: seq<Option<BenchmarkResult>>): (n: nat)
    ensures n <= |row|
  {
    if row == [] then 0 else (if row[0].Some? then 1 else 0) + RowCount(row[1..])
  }

  function GridCount(grid: seq<seq<Option<BenchmarkResult>>>): nat
  {
    if grid == [] then 0 else RowCount(grid[0]) + GridCount(grid[1..])
  }

  predicate Rectangular(grid: seq<seq<Option<BenchmarkResult>>>, columns: nat)
  {
    forall i :: 0 <= i < |grid| ==> |grid[i]| == columns
  }

  function EmptyGrid(rows: nat, columns: nat): (grid: seq<seq<Option<BenchmarkResult>>>)
    ensures |grid| == rows && Rectangular(grid, columns)
    ensures forall i, j :: 0 <= i < rows && 0 <= j < columns ==> grid[i][j] == None
  {
    seq(rows, i => seq(columns, j => None))
  }

  lemma {:induction false} EmptyGridCount(rows: nat, columns: nat)
    ensures GridCount(EmptyGrid(rows, columns)) == 0
  {
    if rows > 0 {
      var g := EmptyGrid(rows, columns);
      EmptyRowCount(g[0]);
      assert g[1..] == EmptyGrid(rows - 1, columns);
      EmptyGridCount(rows - 1, columns);
    }
  }

  lemma {:induction false} EmptyRowCount(row: seq<Option<BenchmarkResult>>)
    requires forall j :: 0 <= j < |row| ==> row[j] == None
    ensures RowCount(row) == 0
  {
    if row != [] {
      EmptyRowCount(row[1..]);
    }
  }

  /** Writing an empty cell raises the count by exactly one. */
  lemma {:induction false} RowCountWrite(row: seq<Option<BenchmarkResult>>, j: nat, v: BenchmarkResult)
    requires j < |row| && row[j] == None
    ensures RowCount(row[j := Some(v)]) == RowCount(row) + 1
  {
    if j > 0 {
      assert row[j := Some(v)][1..] == row[1..][j - 1 := Some(v)];
      RowCountWrite(row[1..], j - 1, v);
    } else {
      assert row[j := Some(v)][1..] == row[1..];
    }
  }

  lemma {:induction false} GridCountWrite(grid: seq<seq<Option<BenchmarkResult>>>, i: nat, j: nat, v: BenchmarkResult)
    requires i < |grid| && j < |grid[i]| && grid[i][j] == None
    ensures GridCount(grid[i := grid[i][j := Some(v)]]) == GridCount(grid) + 1
  {
    var g := grid[i := grid[i][j := Some(v)]];
    if i > 0 {
      assert g[1..] == grid[1..][i - 1 := grid[i][j := Some(v)]];
      GridCountWrite(grid[1..], i - 1, j, v);
    } else {
      assert g[1..] == grid[1..];
      RowCountWrite(grid[0], j, v);
    }
  }

  /** A row with an empty cell is not fully counted. */
  lemma {:induction false} RowCountWithHole(row: seq<Option<BenchmarkResult>>, j: nat)
    requires j < |row| && row[j] == None
    ensures RowCount(row) < |row|
  {
    if j > 0 {
      RowCountWithHole(row[1..], j - 1);
    }
  }

  /**
   * A rectangular grid holds at most rows x columns values, and strictly fewer while
   * any cell is empty.
   */
  lemma {:induction false} GridCountWithHole(grid: seq<seq<Option<BenchmarkResult>>>, columns: nat, i: nat, j: nat)
    requires Rectangular(grid, columns)
    requires i < |grid| && j < columns && grid[i][j] == None
    ensures GridCount(grid) < |grid| * columns
  {
    GridCountBound(grid[1..], columns);
    if i > 0 {
      GridCountWithHole(grid[1..], columns, i - 1, j);
    } else {
      RowCountWithHole(grid[0], j);
    }
    assert |grid| * columns == columns + (|grid| - 1) * columns;
  }

  lemma {:induction false} GridCountBound(grid: seq<seq<Option<BenchmarkResult>>>, columns: nat)
    requires Rectangular(grid, columns)
    ensures GridCount(grid) <= |grid| * columns
  {
    if grid != [] {
      GridCountBound(grid[1..], columns);
      assert |grid| * columns == columns + (|grid| - 1) * columns;
    }
  }

  class SimulationResultsDictionary<P(==), B(==)> {
    var predictorIndexMap: map<P, int>
    var benchmarkIndexMap: map<B, int>
    var numberOfPredictors: int
    var numberOfBenchmarks: int
    var observableCollections: map<P, seq<BenchmarkResult>>
    var resultMatrix: array2?<Option<BenchmarkResult>>
    var valuesEntered: int

    /** A copy of the current matrix's cells, used to count the written ones. */
    ghost var slots: seq<seq<Option<BenchmarkResult>>>
    /** `valuesEntered` when the current matrix was allocated. */
    ghost var baseline: int

    ghost predicate Valid()
      reads this, resultMatrix
    {
      KeysValid() && MatrixValid()
    }

    /** Indices are in range of the counters and distinct; one list per predictor. */
    ghost predicate KeysValid()
      reads this`predictorIndexMap, this`benchmarkIndexMap, this`numberOfPredictors,
            this`numberOfBenchmarks, this`observableCollections
    {
      0 <= numberOfPredictors && 0 <= numberOfBenchmarks
      && (forall p :: p in predictorIndexMap ==> 0 <= predictorIndexMap[p] < numberOfPredictors)
      && (forall p, q :: p in predictorIndexMap && q in predictorIndexMap && p != q ==>
            predictorIndexMap[p] != predictorIndexMap[q])
      && (forall b :: b in benchmarkIndexMap ==> 0 <= benchmarkIndexMap[b] < numberOfBenchmarks)
      && (forall b, c :: b in benchmarkIndexMap && c in benchmarkIndexMap && b != c ==>
            benchmarkIndexMap[b] != benchmarkIndexMap[c])
      && observableCollections.Keys == predictorIndexMap.Keys
    }

    /** `slots` mirrors the matrix, and `valuesEntered` counts the written slots. */
    /** The cells of `m` are those of `grid`. */
    static ghost predicate MatrixFor(m: array2<Option<BenchmarkResult>>, grid: seq<seq<Option<BenchmarkResult>>>)
      reads m
    {
      |grid| == m.Length0 && Rectangular(grid, m.Length1)
      && forall i, j :: 0 <= i < m.Length0 && 0 <= j < m.Length1 ==> m[i, j] == grid[i][j]
    }

    ghost predicate MatrixValid()
      reads this`resultMatrix, this`slots, this`baseline, this`valuesEntered, resultMatrix
    {
      0 <= baseline <= valuesEntered
      && (resultMatrix == null ==> slots == [] && baseline == valuesEntered)
      && (resultMatrix != null ==> MatrixFor(resultMatrix, slots) && valuesEntered == baseline + GridCount(slots))
    }

    /**
     * The usual run: the matrix was allocated after `Clear` and sized by the counters
     * (no duplicate key was offered), so every value entered sits in the matrix.
     */
    ghost predicate RunShaped()
      reads this, resultMatrix
    {
      resultMatrix != null && baseline == 0
      && resultMatrix.Length0 == numberOfPredictors && resultMatrix.Length1 == numberOfBenchmarks
    }

    predicate IsFull()
      reads this
    {
      resultMatrix != null && valuesEntered == numberOfPredictors * numberOfBenchmarks
    }

    /**
     * A duplicate key advances its counter but not its registry, so a matrix sized by the
     * registries has fewer cells than predictors x benchmarks. `valuesEntered` counts only
     * written cells, so such a dictionary is never full and `filled` never fires.
     */
    lemma NeverFullWhenUndersized()
      requires Valid() && resultMatrix != null && baseline == 0
      requires resultMatrix.Length0 * resultMatrix.Length1 < numberOfPredictors * numberOfBenchmarks
      ensures !IsFull()
    {
      GridCountBound(slots, resultMatrix.Length1);
    }

    constructor ()
      ensures Valid()
      ensures predictorIndexMap == map[] && benchmarkIndexMap == map[] && observableCollections == map[]
      ensures numberOfPredictors == 0 && numberOfBenchmarks == 0 && valuesEntered == 0
      ensures resultMatrix == null && !IsFull()
    {
      predictorIndexMap := map[];
      benchmarkIndexMap := map[];
      numberOfPredictors := 0;
      numberOfBenchmarks := 0;
      observableCollections := map[];
      resultMatrix := null;
      valuesEntered := 0;
      slots := [];
      baseline := 0;
    }

    /**
     * Registers a predictor under the next index. The counter is post-incremented as an
     * argument of `Add`, so it grows even when `Add` throws for a duplicate key; then
     * nothing else changes and the result is null (None).
     */
    method AddPredictor(predictor: P) returns (collection: Option<seq<BenchmarkResult>>)
      requires Valid()
      modifies this`predictorIndexMap, this`numberOfPredictors, this`observableCollections
      ensures Valid()
      ensures numberOfPredictors == old(numberOfPredictors) + 1
      ensures predictor in old(predictorIndexMap) ==>
        collection == None && predictorIndexMap == old(predictorIndexMap)
        && observableCollections == old(observableCollections)
      ensures predictor !in old(predictorIndexMap) ==>
        collection == Some([])
        && predictorIndexMap == old(predictorIndexMap)[predictor := old(numberOfPredictors)]
        && observableCollections == old(observableCollections)[predictor := []]
    {
      var index := numberOfPredictors;
      numberOfPredictors := numberOfPredictors + 1;
      if predictor in predictorIndexMap {
        collection := None;
      } else {
        predictorIndexMap := predictorIndexMap[predictor := index];
        observableCollections := observableCollections[predictor := []];
        collection := Some([]);
      }
    }

    /** Registers a benchmark under the next index; a duplicate only advances the counter. */
    method AddBenchmark(benchmark: B)
      requires Valid()
      modifies this`benchmarkIndexMap, this`numberOfBenchmarks
      ensures Valid()
      ensures numberOfBenchmarks == old(numberOfBenchmarks) + 1
      ensures benchmark in old(benchmarkIndexMap) ==> benchmarkIndexMap == old(benchmarkIndexMap)
      ensures benchmark !in old(benchmarkIndexMap) ==>
        benchmarkIndexMap == old(benchmarkIndexMap)[benchmark := old(numberOfBenchmarks)]
    {
      var index := numberOfBenchmarks;
      numberOfBenchmarks := numberOfBenchmarks + 1;
      if benchmark !in benchmarkIndexMap {
        benchmarkIndexMap := benchmarkIndexMap[benchmark := index];
      }
    }

    /** Allocates an empty matrix sized by the number of registered keys (not the counters). */
    method Initialize()
      requires Valid()
      modifies this`resultMatrix, this`slots, this`baseline
      ensures Valid() && fresh(resultMatrix)
      ensures resultMatrix != null
      ensures resultMatrix.Length0 == |predictorIndexMap| && resultMatrix.Length1 == |benchmarkIndexMap|
      ensures forall i, j :: 0 <= i < resultMatrix.Length0 && 0 <= j < resultMatrix.Length1 ==>
        resultMatrix[i, j] == None
      ensures valuesEntered == old(valuesEntered) && baseline == valuesEntered
    {
      var rows, columns := |predictorIndexMap|, |benchmarkIndexMap|;
      var m, grid := NewMatrix(rows, columns);
      resultMatrix, slots, baseline := m, grid, valuesEntered;
    }

    /** `new Option<BenchmarkResult>[rows, columns]`: every slot starts empty. */
    static method NewMatrix(rows: nat, columns: nat)
      returns (m: array2<Option<BenchmarkResult>>, ghost grid: seq<seq<Option<BenchmarkResult>>>)
      ensures fresh(m) && m.Length0 == rows && m.Length1 == columns
      ensures MatrixFor(m, grid) && GridCount(grid) == 0
      ensures forall i, j :: 0 <= i < rows && 0 <= j < columns ==> m[i, j] == None
    {
      m := new Option<BenchmarkResult>[rows, columns]((i, j) => None);
      grid := EmptyGrid(rows, columns);
      EmptyGridCount(rows, columns);
    }

    method GetResult(predictor: P, benchmark: B) returns (r: Result<Option<BenchmarkResult>, GetError>)
      requires Valid()
      ensures predictor !in predictorIndexMap ==> r == Failure(UnknownPredictor)
      ensures predictor in predictorIndexMap && benchmark !in benchmarkIndexMap ==>
        r == Failure(UnknownBenchmark)
      ensures predictor in predictorIndexMap && benchmark in benchmarkIndexMap && resultMatrix == null ==>
        r == Failure(MatrixNull)
      ensures r.Success? ==>
        predictor in predictorIndexMap && benchmark in benchmarkIndexMap && resultMatrix != null
        && predictorIndexMap[predictor] < resultMatrix.Length0
        && benchmarkIndexMap[benchmark] < resultMatrix.Length1
        && r.value == resultMatrix[predictorIndexMap[predictor], benchmarkIndexMap[benchmark]]
      ensures r == Failure(OutOfRange) <==>
        predictor in predictorIndexMap && benchmark in benchmarkIndexMap && resultMatrix != null
        && (predictorIndexMap[predictor] >= resultMatrix.Length0
            || benchmarkIndexMap[benchmark] >= resultMatrix.Length1)
    {
      if predictor !in predictorIndexMap {
        return Failure(UnknownPredictor);
      }
      if benchmark !in benchmarkIndexMap {
        return Failure(UnknownBenchmark);
      }
      if resultMatrix == null {
        return Failure(MatrixNull);
      }
      var i, j := predictorIndexMap[predictor], benchmarkIndexMap[benchmark];
      if i >= resultMatrix.Length0 || j >= resultMatrix.Length1 {
        return Failure(OutOfRange);
      }
      r := Success(resultMatrix[i, j]);
    }

    /**
     * The checks shared by both setters: the exception they throw, or None when the
     * keys address an empty slot of the matrix and the value is not null.
     */
    function Rejection(predictor: P, benchmark: B, value: Option<BenchmarkResult>): (failure: Option<SetOutcome>)
      requires Valid()
      reads this, resultMatrix
      ensures failure == None <==>
        predictor in predictorIndexMap && benchmark in benchmarkIndexMap && resultMatrix != null
        && predictorIndexMap[predictor] < resultMatrix.Length0
        && benchmarkIndexMap[benchmark] < resultMatrix.Length1
        && value.Some? && resultMatrix[predictorIndexMap[predictor], benchmarkIndexMap[benchmark]].None?
      ensures predictor !in predictorIndexMap ==> failure == Some(InvalidPredictor)
      ensures predictor in predictorIndexMap && benchmark !in benchmarkIndexMap ==>
        failure == Some(InvalidBenchmark)
      ensures predictor in predictorIndexMap && benchmark in benchmarkIndexMap && value.None? ==>
        failure == Some(NotSupported)
      ensures predictor in predictorIndexMap && benchmark in benchmarkIndexMap && value.Some? && resultMatrix == null ==>
        failure == Some(NoMatrix)
      ensures failure.Some? ==> !failure.value.Stored?
    {
      if predictor !in predictorIndexMap then Some(InvalidPredictor)
      else if benchmark !in benchmarkIndexMap then Some(InvalidBenchmark)
      // `value != null && ...` is tested first, so a null value never touches the matrix
      else if value.None? then Some(NotSupported)
      else if resultMatrix == null then Some(NoMatrix)
      else
        var i, j := predictorIndexMap[predictor], benchmarkIndexMap[benchmark];
        if i >= resultMatrix.Length0 || j >= resultMatrix.Length1 then Some(IndexOutOfRange)
        else if resultMatrix[i, j].Some? then Some(NotSupported)
        else None
    }

    /** Writes the located empty slot and counts it. */
    method Store(i: int, j: int, v: BenchmarkResult)
      requires Valid() && resultMatrix != null
      requires 0 <= i < resultMatrix.Length0 && 0 <= j < resultMatrix.Length1
      requires resultMatrix[i, j] == None
      modifies this`valuesEntered, this`slots, resultMatrix
      ensures Valid()
      ensures resultMatrix[i, j] == Some(v)
      ensures forall i', j' ::
        (0 <= i' < resultMatrix.Length0 && 0 <= j' < resultMatrix.Length1 && (i', j') != (i, j)) ==>
        resultMatrix[i', j'] == old(resultMatrix[i', j'])
      ensures valuesEntered == old(valuesEntered) + 1
      ensures old(RunShaped()) ==> valuesEntered <= numberOfPredictors * numberOfBenchmarks
    {
      GridCountWithHole(slots, resultMatrix.Length1, i, j);
      GridCountWrite(slots, i, j, v);
      valuesEntered := valuesEntered + 1;
      resultMatrix[i, j] := Some(v);
      slots := slots[i := slots[i][j := Some(v)]];
    }

    /** Inserts a stored value into its predictor's name-sorted list. */
    method Publish(predictor: P, v: BenchmarkResult)
      requires Valid() && predictor in predictorIndexMap
      modifies this`observableCollections
      ensures Valid()
      ensures observableCollections == old(observableCollections)[predictor :=
        InsertSorted(old(observableCollections)[predictor], v)]
    {
      observableCollections := observableCollections[predictor :=
        InsertSorted(observableCollections[predictor], v)];
    }

    /**
     * Writes a result once. On success only the addressed slot changes, `valuesEntered`
     * grows by one, the value joins that predictor's sorted list, and `filled` fires when
     * the counter reaches predictors x benchmarks. On every exception nothing changes.
     * In a run-shaped dictionary that is full, no write can succeed, so `filled` fires
     * at most once per run.
     */
    method SetResult(predictor: P, benchmark: B, value: Option<BenchmarkResult>) returns (outcome: SetOutcome)
      requires Valid()
      modifies this`valuesEntered, this`observableCollections, this`slots, resultMatrix
      ensures Valid()
      ensures outcome.Stored? <==> old(Rejection(predictor, benchmark, value)) == None
      ensures !outcome.Stored? ==> outcome == old(Rejection(predictor, benchmark, value)).value
      ensures !outcome.Stored? ==>
        valuesEntered == old(valuesEntered) && observableCollections == old(observableCollections)
        && (resultMatrix != null ==> unchanged(resultMatrix))
      ensures outcome.Stored? ==>
        predictor in predictorIndexMap && benchmark in benchmarkIndexMap && value.Some?
        && var i, j := predictorIndexMap[predictor], benchmarkIndexMap[benchmark];
        && resultMatrix != null && i < resultMatrix.Length0 && j < resultMatrix.Length1
        && old(resultMatrix[i, j]) == None && resultMatrix[i, j] == value
        && (forall i', j' ::
              (0 <= i' < resultMatrix.Length0 && 0 <= j' < resultMatrix.Length1 && (i', j') != (i, j)) ==>
              resultMatrix[i', j'] == old(resultMatrix[i', j']))
        && valuesEntered == old(valuesEntered) + 1
        && observableCollections == old(observableCollections)[predictor :=
             InsertSorted(old(observableCollections)[predictor], value.value)]
        && outcome.filled == (valuesEntered == numberOfPredictors * numberOfBenchmarks)
      ensures old(RunShaped() && IsFull()) ==> !outcome.Stored?
    {
      var failure := Rejection(predictor, benchmark, value);
      if failure.Some? {
        return failure.value;
      }
      var i, j := predictorIndexMap[predictor], benchmarkIndexMap[benchmark];
      Store(i, j, value.value);
      Publish(predictor, value.value);
      outcome := Stored(valuesEntered == numberOfPredictors * numberOfBenchmarks);
    }

    /**
     * The synchronous part of the dispatcher variant: the same checks, slot and counter
     * update and `filled` test. The insertion into the predictor's list is queued on the
     * UI dispatcher and is not part of this step, so the lists do not change here.
     */
    method SetResultUsingDispatcher(predictor: P, benchmark: B, value: Option<BenchmarkResult>)
      returns (outcome: SetOutcome)
      requires Valid()
      modifies this`valuesEntered, this`slots, resultMatrix
      ensures Valid()
      ensures outcome.Stored? <==> old(Rejection(predictor, benchmark, value)) == None
      ensures !outcome.Stored? ==> outcome == old(Rejection(predictor, benchmark, value)).value
      ensures observableCollections == old(observableCollections)
      ensures !outcome.Stored? ==>
        valuesEntered == old(valuesEntered) && (resultMatrix != null ==> unchanged(resultMatrix))
      ensures outcome.Stored? ==>
        predictor in predictorIndexMap && benchmark in benchmarkIndexMap && value.Some?
        && var i, j := predictorIndexMap[predictor], benchmarkIndexMap[benchmark];
        && resultMatrix != null && i < resultMatrix.Length0 && j < resultMatrix.Length1
        && old(resultMatrix[i, j]) == None && resultMatrix[i, j] == value
        && (forall i', j' ::
              (0 <= i' < resultMatrix.Length0 && 0 <= j' < resultMatrix.Length1 && (i', j') != (i, j)) ==>
              resultMatrix[i', j'] == old(resultMatrix[i', j']))
        && valuesEntered == old(valuesEntered) + 1
        && outcome.filled == (valuesEntered == numberOfPredictors * numberOfBenchmarks)
      ensures old(RunShaped() && IsFull()) ==> !outcome.Stored?
    {
      var failure := Rejection(predictor, benchmark, value);
      if failure.Some? {
        return failure.value;
      }
      var i, j := predictorIndexMap[predictor], benchmarkIndexMap[benchmark];
      Store(i, j, value.value);
      outcome := Stored(valuesEntered == numberOfPredictors * numberOfBenchmarks);
    }

    method Clear()
      requires Valid()
      modifies this
      ensures Valid()
      ensures predictorIndexMap == map[] && benchmarkIndexMap == map[] && observableCollections == map[]
      ensures numberOfPredictors == 0 && numberOfBenchmarks == 0 && valuesEntered == 0
      ensures resultMatrix == null && !IsFull()
    {
      predictorIndexMap := map[];
      benchmarkIndexMap := map[];
      numberOfPredictors := 0;
      numberOfBenchmarks := 0;
      observableCollections := map[];
      resultMatrix := null;
      valuesEntered := 0;
      slots := [];
      baseline := 0;
    }
  }
}
