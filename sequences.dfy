/** Sequence helpers shared by the parsers and the front ends. */
module Sequences {

  /** The distinct elements of `s`, each at its first occurrence. */
  function Distinct<T(==,!new)>(s: seq<T>): (d: seq<T>)
    ensures forall x :: x in d <==> x in s
  {
    if |s| == 0 then []
    else
      var front := Distinct(s[..|s| - 1]);
      if s[|s| - 1] in front then front else front + [s[|s| - 1]]
  }

  /** `Distinct` never repeats an element and keeps a repetition-free sequence as it is. */
  lemma {:induction false} DistinctIsDistinct<T(!new)>(s: seq<T>)
    ensures forall i, j :: 0 <= i < j < |Distinct(s)| ==> Distinct(s)[i] != Distinct(s)[j]
    ensures (forall i, j :: 0 <= i < j < |s| ==> s[i] != s[j]) ==> Distinct(s) == s
  {
    if |s| > 0 {
      var front := s[..|s| - 1];
      DistinctIsDistinct(front);
      if forall i, j :: 0 <= i < j < |s| ==> s[i] != s[j] {
        assert forall i, j :: 0 <= i < j < |front| ==> front[i] != front[j];
        assert s[|s| - 1] !in front;
        assert s == front + [s[|s| - 1]];
      }
    }
  }

}
