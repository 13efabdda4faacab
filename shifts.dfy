/**
 * The history registers kept as arrays: shifting a new value in at one end, every
 * other value moving one place toward the other end and the oldest one dropping out.
 */
module Shifts {

  /** `a[i] = a[i + 1]` for every `i` below the last, then the new value goes last. */
  method ShiftIntoLast<T>(a: array<T>, x: T)
    requires a.Length >= 1
    modifies a
    ensures a[..] == old(a[..])[1..] + [x]
  {
    var i := 0;
    while i < a.Length - 1
      invariant 0 <= i <= a.Length - 1
      invariant forall j :: 0 <= j < i ==> a[j] == old(a[j + 1])
      invariant forall j :: i <= j < a.Length ==> a[j] == old(a[j])
    {
      a[i] := a[i + 1];
      i := i + 1;
    }
    a[a.Length - 1] := x;
    assert forall j :: 0 <= j < a.Length ==> a[j] == (old(a[..])[1..] + [x])[j];
  }

  /** `a[i] = a[i - 1]` from the last index down to 1, then the new value goes first. */
  method ShiftIntoFirst<T>(a: array<T>, x: T)
    requires a.Length >= 1
    modifies a
    ensures a[..] == [x] + old(a[..])[..a.Length - 1]
  {
    var i := a.Length - 1;
    while i > 0
      invariant 0 <= i <= a.Length - 1
      invariant forall j :: i < j < a.Length ==> a[j] == old(a[j - 1])
      invariant forall j :: 0 <= j <= i ==> a[j] == old(a[j])
    {
      a[i] := a[i - 1];
      i := i - 1;
    }
    a[0] := x;
    assert forall j :: 0 <= j < a.Length ==> a[j] == ([x] + old(a[..])[..a.Length - 1])[j];
  }

  /** `a[i] = a[i - 1]` from the last index down to 2, then the new value goes second; `a[0]` stays. */
  method ShiftIntoSecond<T>(a: array<T>, x: T)
    requires a.Length >= 2
    modifies a
    ensures a[..] == [old(a[0]), x] + old(a[..])[1..a.Length - 1]
  {
    var i := a.Length - 1;
    while i > 1
      invariant 1 <= i <= a.Length - 1
      invariant forall j :: i < j < a.Length ==> a[j] == old(a[j - 1])
      invariant forall j :: 0 <= j <= i ==> a[j] == old(a[j])
    {
      a[i] := a[i - 1];
      i := i - 1;
    }
    a[1] := x;
    assert forall j :: 0 <= j < a.Length ==> a[j] == ([old(a[0]), x] + old(a[..])[1..a.Length - 1])[j];
  }
}
