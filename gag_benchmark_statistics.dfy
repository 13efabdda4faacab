/**
 * The result list of the single-predictor (GAg) front end: the same name-sorted
 * insertion as the main front end, with only the arithmetic mean.
 */
module GAgBenchmarkStatistics {
  import opened BenchmarkStatistics

  /** The accumulator loop of this front end's `calculateMeans`: count and sum only. */
  method ArithmeticAccumulators(s: seq<BenchmarkResult>) returns (count: nat, sum: real)
    ensures count == QualifyingCount(s)
    ensures sum == QualifyingSum(s)
  {
    count, sum := 0, 0.0;
    var i := 0;
    while i < |s|
      invariant 0 <= i <= |s|
      invariant count == QualifyingCount(s[..i])
      invariant sum == QualifyingSum(s[..i])
    {
      assert s[..i + 1][..i] == s[..i];
      if Qualifies(s[i]) {
        sum := sum + s[i].accuracy.v;
        count := count + 1;
      }
      i := i + 1;
    }
    assert s[..i] == s;
  }

  class BenchmarkStatisticsCollection {
    var items: seq<BenchmarkResult>
    var arithmeticMean: real
    var showFinalisationMessage: bool
    var finalisationVisible: bool

    ghost predicate Consistent()
      reads this
    {
      arithmeticMean == ArithmeticMean(items) && finalisationVisible == showFinalisationMessage
    }

    constructor ()
      ensures items == [] && Consistent()
      ensures arithmeticMean == 0.0 && !showFinalisationMessage && !finalisationVisible
    {
      items := [];
      arithmeticMean := 0.0;
      showFinalisationMessage := false;
      finalisationVisible := false;
    }

    method CalculateMeans()
      modifies this`arithmeticMean
      ensures arithmeticMean == ArithmeticMean(items)
    {
      var count, sum := ArithmeticAccumulators(items);
      if count != 0 {
        arithmeticMean := sum / (count as real);
      } else {
        arithmeticMean := 0.0;
      }
    }

    method CollectionChanged()
      modifies this`arithmeticMean, this`finalisationVisible
      ensures Consistent()
    {
      CalculateMeans();
      if showFinalisationMessage {
        finalisationVisible := true;
      } else {
        finalisationVisible := false;
      }
    }

    method AddSorted(item: BenchmarkResult)
      modifies this`items, this`arithmeticMean, this`finalisationVisible
      ensures items == InsertSorted(old(items), item)
      ensures Consistent()
    {
      var i := 0;
      while i < |items|
        invariant 0 <= i <= |items|
        invariant InsertPosition(items, item) == i + InsertPosition(items[i..], item)
      {
        if NameLess(item.name, items[i].name) {
          break;
        }
        assert items[i..][1..] == items[i + 1..];
        i := i + 1;
      }
      items := items[..i] + [item] + items[i..];
      CollectionChanged();
    }
  }
}
