/**
 * The per-predictor list of benchmark results of the simulator front end: a list kept
 * sorted by benchmark name, whose means are recomputed after every change and which
 * counts only the results whose accuracy is a positive number.
 */
module BenchmarkStatistics {

  /** A C# `double` accuracy: NaN for a run without branches, otherwise its value. */
  datatype Accuracy = NaN | Value(v: real)

  /** One benchmark result: its name, its accuracy and the branch counts of the run. */
  datatype BenchmarkResult = BenchmarkResult(
    name: string,
    accuracy: Accuracy,
    numberOfBranches: int,
    correct: int,
    incorrect: int)

  /** IEEE `a != b` on doubles: true whenever either side is NaN. */
  predicate DoubleNotEqual(a: Accuracy, b: Accuracy) {
    a.NaN? || b.NaN? || a.v != b.v
  }

  /** IEEE `a > 0`: false for NaN. */
  predicate DoubleGreaterThanZero(a: Accuracy) {
    a.Value? && a.v > 0.0
  }

  /**
   * The filter of the mean computation, `Accuracy != NaN && Accuracy > 0`. The first
   * test holds for every double (NaN compares unequal to everything), so exactly the
   * positive accuracies qualify.
   */
  function Qualifies(r: BenchmarkResult): (q: bool)
    ensures q <==> r.accuracy.Value? && r.accuracy.v > 0.0
    ensures DoubleNotEqual(r.accuracy, NaN)
  {
    DoubleNotEqual(r.accuracy, NaN) && DoubleGreaterThanZero(r.accuracy)
  }

  // ---------------------------------------------------------------------------
  // Name order. `String.CompareTo` is modelled as ordinal lexicographic order.

  predicate NameLess(a: string, b: string)
    decreases |a|
  {
    if |a| == 0 then |b| > 0
    else if |b| == 0 then false
    else if a[0] != b[0] then a[0] < b[0]
    else NameLess(a[1..], b[1..])
  }

  lemma {:induction false} NameLessIrreflexive(a: string)
    ensures !NameLess(a, a)
    decreases |a|
  {
    if |a| > 0 {
      NameLessIrreflexive(a[1..]);
    }
  }

  lemma {:induction false} NameLessTransitive(a: string, b: string, c: string)
    requires NameLess(a, b) && NameLess(b, c)
    ensures NameLess(a, c)
    decreases |a|
  {
    if |a| > 0 && |b| > 0 && |c| > 0 && a[0] == b[0] && b[0] == c[0] {
      NameLessTransitive(a[1..], b[1..], c[1..]);
    }
  }

  lemma {:induction false} NameLessTotal(a: string, b: string)
    ensures a == b || NameLess(a, b) || NameLess(b, a)
    decreases |a|
  {
    if |a| > 0 && |b| > 0 && a[0] == b[0] {
      NameLessTotal(a[1..], b[1..]);
      if a[1..] == b[1..] {
        assert a == [a[0]] + a[1..] && b == [b[0]] + b[1..];
      }
    }
  }

  /** `NameLess` is asymmetric, so "compares greater" and "compares not greater" are exclusive. */
  lemma NameLessAsymmetric(a: string, b: string)
    requires NameLess(a, b)
    ensures !NameLess(b, a)
  {
    if NameLess(b, a) {
      NameLessTransitive(a, b, a);
      NameLessIrreflexive(a);
    }
  }

  /** No element compares greater than a later one. */
  predicate Sorted(s: seq<BenchmarkResult>) {
    forall i, j :: 0 <= i < j < |s| ==> !NameLess(s[j].name, s[i].name)
  }

  /**
   * Where `addSorted` inserts: before the first element whose name compares strictly
   * greater than the new one, or at the end.
   */
  function InsertPosition(s: seq<BenchmarkResult>, item: BenchmarkResult): (p: nat)
    ensures p <= |s|
    ensures forall k :: 0 <= k < p ==> !NameLess(item.name, s[k].name)
    ensures p < |s| ==> NameLess(item.name, s[p].name)
  {
    if |s| == 0 then 0
    else if NameLess(item.name, s[0].name) then 0
    else 1 + InsertPosition(s[1..], item)
  }

  function InsertSorted(s: seq<BenchmarkResult>, item: BenchmarkResult): (r: seq<BenchmarkResult>)
    ensures |r| == |s| + 1
    ensures multiset(r) == multiset(s) + multiset{item}
  {
    var p := InsertPosition(s, item);
    assert s == s[..p] + s[p..];
    s[..p] + [item] + s[p..]
  }

  /** Removing the inserted item gives back the old list: the others keep their order. */
  lemma InsertSortedRemove(s: seq<BenchmarkResult>, item: BenchmarkResult)
    ensures var p := InsertPosition(s, item);
      var r := InsertSorted(s, item);
      r[p] == item && r[..p] + r[p + 1..] == s
  {
    var p := InsertPosition(s, item);
    var r := InsertSorted(s, item);
    assert r[..p] == s[..p];
    assert r[p + 1..] == s[p..];
    assert s == s[..p] + s[p..];
  }

  /** A new item goes after every existing item with the same name: insertion is stable. */
  lemma InsertSortedStable(s: seq<BenchmarkResult>, item: BenchmarkResult, k: nat)
    requires Sorted(s)
    requires k < |s| && s[k].name == item.name
    ensures k < InsertPosition(s, item)
  {
    var p := InsertPosition(s, item);
    if p <= k {
      // s[p] compares above item, whose name is s[k]'s: impossible for p == k, and
      // for p < k it contradicts sortedness
      NameLessIrreflexive(item.name);
      assert false;
    }
  }

  /** Anything not below `hi` is not below a name that is itself below `hi`. */
  lemma NotBelowLower(x: string, lo: string, hi: string)
    requires NameLess(lo, hi) && !NameLess(x, hi)
    ensures !NameLess(x, lo)
  {
    if NameLess(x, lo) {
      NameLessTransitive(x, lo, hi);
      assert false;
    }
  }

  lemma InsertSortedKeepsSorted(s: seq<BenchmarkResult>, item: BenchmarkResult)
    requires Sorted(s)
    ensures Sorted(InsertSorted(s, item))
  {
    var p := InsertPosition(s, item);
    var r := InsertSorted(s, item);
    forall i, j | 0 <= i < j < |r|
      ensures !NameLess(r[j].name, r[i].name)
    {
      if i < p && j == p {
      } else if i == p && j > p {
        // r[j] == s[j - 1] does not compare below s[p], which compares above item
        assert r[j] == s[j - 1];
        if j - 1 == p {
          NameLessIrreflexive(s[p].name);
        }
        NotBelowLower(s[j - 1].name, item.name, s[p].name);
      } else if i < p && j > p {
        assert r[i] == s[i] && r[j] == s[j - 1];
      } else if j < p {
        assert r[i] == s[i] && r[j] == s[j];
      } else {
        assert r[i] == s[i - 1] && r[j] == s[j - 1];
      }
    }
  }

  // ---------------------------------------------------------------------------
  // The qualifying filter and the means.

  /** Number of results that count toward the means (over a prefix-built sequence). */
  function QualifyingCount(s: seq<BenchmarkResult>): (n: nat)
    ensures n <= |s|
  {
    if s == [] then 0
    else QualifyingCount(s[..|s| - 1]) + (if Qualifies(s[|s| - 1]) then 1 else 0)
  }

  /** Sum of the qualifying accuracies. */
  function QualifyingSum(s: seq<BenchmarkResult>): real
  {
    if s == [] then 0.0
    else QualifyingSum(s[..|s| - 1]) + (if Qualifies(s[|s| - 1]) then s[|s| - 1].accuracy.v else 0.0)
  }

  /** Sum of the reciprocals of the qualifying accuracies. */
  function QualifyingInverseSum(s: seq<BenchmarkResult>): real
  {
    if s == [] then 0.0
    else
      var last := s[|s| - 1];
      QualifyingInverseSum(s[..|s| - 1]) + (if Qualifies(last) then 1.0 / last.accuracy.v else 0.0)
  }

  /** Both sums are positive exactly when some result qualifies, and never negative. */
  lemma {:induction false} QualifyingSumsPositive(s: seq<BenchmarkResult>)
    ensures QualifyingSum(s) >= 0.0 && QualifyingInverseSum(s) >= 0.0
    ensures QualifyingCount(s) > 0 <==> QualifyingSum(s) > 0.0
    ensures QualifyingCount(s) > 0 <==> QualifyingInverseSum(s) > 0.0
  {
    if s != [] {
      QualifyingSumsPositive(s[..|s| - 1]);
    }
  }

  /** Arithmetic mean of the qualifying accuracies, 0 when none qualifies. */
  function ArithmeticMean(s: seq<BenchmarkResult>): real
  {
    var n := QualifyingCount(s);
    if n != 0 then QualifyingSum(s) / (n as real) else 0.0
  }

  /** Harmonic mean of the qualifying accuracies, 0 when none qualifies. */
  function HarmonicMean(s: seq<BenchmarkResult>): real
  {
    var n := QualifyingCount(s);
    if n != 0 && QualifyingInverseSum(s) != 0.0 then (n as real) / QualifyingInverseSum(s) else 0.0
  }

  /**
   * The means are zero exactly when no result qualifies, and positive otherwise; results
   * that do not qualify (NaN or non-positive accuracy) never move them.
   */
  lemma MeansZeroIffNoneQualifies(s: seq<BenchmarkResult>)
    ensures ArithmeticMean(s) == 0.0 <==> QualifyingCount(s) == 0
    ensures HarmonicMean(s) == 0.0 <==> QualifyingCount(s) == 0
    ensures ArithmeticMean(s) >= 0.0 && HarmonicMean(s) >= 0.0
  {
    QualifyingSumsPositive(s);
  }

  lemma NonQualifyingIgnored(s: seq<BenchmarkResult>, r: BenchmarkResult)
    requires !Qualifies(r)
    ensures ArithmeticMean(s + [r]) == ArithmeticMean(s)
    ensures HarmonicMean(s + [r]) == HarmonicMean(s)
  {
    assert (s + [r])[..|s + [r]| - 1] == s;
  }

  /** The accumulator loop of `calculateMeans`: count, sum and reciprocal sum. */
  method MeanAccumulators(s: seq<BenchmarkResult>) returns (count: nat, sum: real, inverseSum: real)
    ensures count == QualifyingCount(s)
    ensures sum == QualifyingSum(s)
    ensures inverseSum == QualifyingInverseSum(s)
  {
    count, sum, inverseSum := 0, 0.0, 0.0;
    var i := 0;
    while i < |s|
      invariant 0 <= i <= |s|
      invariant count == QualifyingCount(s[..i])
      invariant sum == QualifyingSum(s[..i])
      invariant inverseSum == QualifyingInverseSum(s[..i])
    {
      assert s[..i + 1][..i] == s[..i];
      if Qualifies(s[i]) {
        sum := sum + s[i].accuracy.v;
        inverseSum := inverseSum + 1.0 / s[i].accuracy.v;
        count := count + 1;
      }
      i := i + 1;
    }
    assert s[..i] == s;
  }

  /**
   * The front end's result list. `items` is the observable list; the geometric mean of
   * the source is not modelled (it needs a fractional power).
   */
  class BenchmarkStatisticsCollection {
    var items: seq<BenchmarkResult>
    var arithmeticMean: real
    var harmonicMean: real
    var showFinalisationMessage: bool
    var finalisationVisible: bool

    /** The means, and the message visibility, as every change handler leaves them. */
    ghost predicate Consistent()
      reads this
    {
      arithmeticMean == ArithmeticMean(items)
      && harmonicMean == HarmonicMean(items)
      && finalisationVisible == showFinalisationMessage
    }

    constructor ()
      ensures items == [] && Consistent()
      ensures arithmeticMean == 0.0 && harmonicMean == 0.0
      ensures !showFinalisationMessage && !finalisationVisible
    {
      items := [];
      arithmeticMean := 0.0;
      harmonicMean := 0.0;
      showFinalisationMessage := false;
      finalisationVisible := false;
    }

    method CalculateMeans()
      modifies this`arithmeticMean, this`harmonicMean
      ensures arithmeticMean == ArithmeticMean(items)
      ensures harmonicMean == HarmonicMean(items)
    {
      var count, sum, inverseSum := MeanAccumulators(items);
      if count != 0 {
        arithmeticMean := sum / (count as real);
        QualifyingSumsPositive(items);
        harmonicMean := (count as real) / inverseSum;
      } else {
        arithmeticMean := 0.0;
        harmonicMean := 0.0;
      }
    }

    /** The change handler the constructor hooks onto the list. */
    method CollectionChanged()
      modifies this`arithmeticMean, this`harmonicMean, this`finalisationVisible
      ensures Consistent()
    {
      CalculateMeans();
      if showFinalisationMessage {
        finalisationVisible := true;
      } else {
        finalisationVisible := false;
      }
    }

    /** Scans for the first strictly greater name, inserts there, then runs the handler. */
    method AddSorted(item: BenchmarkResult)
      modifies this`items, this`arithmeticMean, this`harmonicMean, this`finalisationVisible
      ensures items == InsertSorted(old(items), item)
      ensures Consistent()
    {
      var i := 0;
      while i < |items|
        invariant 0 <= i <= |items|
        invariant InsertPosition(items, item) == i + InsertPosition(items[i..], item)
      {
        if NameLess(item.name, items[i].name) {
          break;
        }
        assert items[i..][1..] == items[i + 1..];
        i := i + 1;
      }
      items := items[..i] + [item] + items[i..];
      CollectionChanged();
    }
  }
}
