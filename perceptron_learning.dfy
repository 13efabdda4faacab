/**
 * The arithmetic shared by the weight-based predictors (SIP3, Perceptron, Piecewise,
 * FPBNP): an output is a sum of weights, each added or subtracted according to a
 * history bit; training moves each weight one step toward agreeing with the outcome,
 * saturating at the ends of its range.
 */
module PerceptronLearning {

  function Abs(x: int): (r: nat)
    ensures r == x || r == -x
  {
    if x < 0 then -x else x
  }

  /** The contribution of weight `w`: added when its history bit is set, subtracted otherwise. */
  function Signed(positive: bool, w: int): int {
    if positive then w else -w
  }

  /** The sum of the first `k` contributions. */
  function DotTo(ws: seq<int>, hs: seq<bool>, k: nat): int
    requires k <= |ws| && k <= |hs|
  {
    if k == 0 then 0 else DotTo(ws, hs, k - 1) + Signed(hs[k - 1], ws[k - 1])
  }

  /** One saturating training step of a weight in `[lo, hi]`: up toward `hi` or down toward `lo`. */
  function Train(w: int, up: bool, lo: int, hi: int): (r: int)
    ensures up ==> w <= r <= w + 1
    ensures !up ==> w - 1 <= r <= w
    ensures r != w <==> (up && w < hi) || (!up && w > lo)
  {
    if up then (if w < hi then w + 1 else w) else (if w > lo then w - 1 else w)
  }

  lemma TrainInRange(w: int, up: bool, lo: int, hi: int)
    requires lo <= w <= hi
    ensures lo <= Train(w, up, lo, hi) <= hi
  {
  }

  /** An output seen from an outcome: larger means a stronger vote for that outcome. */
  function Toward(taken: bool, x: int): int {
    if taken then x else -x
  }

  /**
   * The learning rule of the perceptron predictors: train on a misprediction, or when
   * the output was weaker than the threshold.
   */
  predicate Learns(taken: bool, prediction: bool, sum: int, threshold: int) {
    taken != prediction || Abs(sum) < threshold
  }

  /** Training a weight toward agreement never moves its contribution away from the outcome. */
  lemma TrainedTermToward(w: int, h: bool, taken: bool, lo: int, hi: int)
    ensures Toward(taken, Signed(h, Train(w, h == taken, lo, hi))) >= Toward(taken, Signed(h, w))
    ensures Train(w, h == taken, lo, hi) != w ==>
              Toward(taken, Signed(h, Train(w, h == taken, lo, hi))) == Toward(taken, Signed(h, w)) + 1
  {
  }

  /**
   * Training every weight toward agreement with the outcome never moves the output, under the
   * same history, away from the outcome, and moves it strictly toward it when any weight was
   * not yet saturated.
   */
  lemma {:induction false} TrainedOutputToward(ws: seq<int>, trained: seq<int>, hs: seq<bool>, taken: bool, lo: int, hi: int, k: nat)
    requires k <= |ws| && k <= |trained| && k <= |hs|
    requires forall j :: 0 <= j < k ==> trained[j] == Train(ws[j], hs[j] == taken, lo, hi)
    ensures Toward(taken, DotTo(trained, hs, k)) >= Toward(taken, DotTo(ws, hs, k))
    ensures (exists j :: 0 <= j < k && trained[j] != ws[j]) ==>
              Toward(taken, DotTo(trained, hs, k)) > Toward(taken, DotTo(ws, hs, k))
  {
    if k > 0 {
      TrainedOutputToward(ws, trained, hs, taken, lo, hi, k - 1);
      TrainedTermToward(ws[k - 1], hs[k - 1], taken, lo, hi);
    }
  }

  /** The same with a bias weight trained toward the outcome itself. */
  lemma BiasedOutputToward(bias: int, ws: seq<int>, trained: seq<int>, hs: seq<bool>, taken: bool, lo: int, hi: int, k: nat)
    requires k <= |ws| && k <= |trained| && k <= |hs|
    requires forall j :: 0 <= j < k ==> trained[j] == Train(ws[j], hs[j] == taken, lo, hi)
    ensures Toward(taken, Train(bias, taken, lo, hi) + DotTo(trained, hs, k)) >= Toward(taken, bias + DotTo(ws, hs, k))
  {
    TrainedOutputToward(ws, trained, hs, taken, lo, hi, k);
  }
}
