/**
 * A benchmark as the key of the result matrix: its identity is its name.
 */
module BenchmarkInfoModel {

  datatype BenchmarkInfo = BenchmarkInfo(benchmarkName: string)

  /** The argument of `Equals(object)`: null, a benchmark, or an object of another type. */
  datatype Object = Null | Benchmark(info: BenchmarkInfo) | OtherType

  /** Names are fixed at construction. */
  function NewBenchmarkInfo(name: string): (b: BenchmarkInfo)
    ensures b.benchmarkName == name
  {
    BenchmarkInfo(name)
  }

  predicate Equals(self: BenchmarkInfo, obj: Object) {
    match obj
    case Benchmark(other) => self.benchmarkName == other.benchmarkName
    case _ => false
  }

  /** The name's hash code; `stringHash` stands for the runtime's string hash. */
  function GetHashCode(self: BenchmarkInfo, stringHash: string -> bv32): bv32 {
    stringHash(self.benchmarkName)
  }

  /** Equality is decided by the name alone, and nothing but a benchmark is equal. */
  lemma EqualsIffSameName(self: BenchmarkInfo, obj: Object)
    ensures Equals(self, obj) <==> obj.Benchmark? && obj.info.benchmarkName == self.benchmarkName
    ensures Equals(self, obj) <==> obj == Benchmark(self)
  {
  }

  lemma EqualsIsEquivalence(a: BenchmarkInfo, b: BenchmarkInfo, c: BenchmarkInfo)
    ensures Equals(a, Benchmark(a))
    ensures Equals(a, Benchmark(b)) ==> Equals(b, Benchmark(a))
    ensures Equals(a, Benchmark(b)) && Equals(b, Benchmark(c)) ==> Equals(a, Benchmark(c))
  {
  }

  /** Equal benchmarks hash equally, whatever the string hash. */
  lemma EqualsImpliesEqualHash(a: BenchmarkInfo, b: BenchmarkInfo, stringHash: string -> bv32)
    requires Equals(a, Benchmark(b))
    ensures GetHashCode(a, stringHash) == GetHashCode(b, stringHash)
  {
  }
}
