/**
 * Turning the value lists of a predictor type's properties into predictor
 * configurations: one configuration per element of the cartesian product of the
 * lists, produced by an odometer over an index array, in lexicographic order with the
 * last property varying fastest.
 */
module PredictorEnumeration {
  import opened Wrappers
  import opened PredictorInfoPool
  import opened Text

  // ---------------------------------------------------------------------------
  // The reference definition: the cartesian product, first list outermost.

  /** Every sequence of `s` with `t` in front. */
  function Prefixed<V>(t: seq<V>, s: seq<seq<V>>): seq<seq<V>> {
    seq(|s|, i requires 0 <= i < |s| => t + s[i])
  }

  function Product<V>(lists: seq<seq<V>>): seq<seq<V>>
    decreases |lists|, 1
  {
    if |lists| == 0 then [[]] else ProductFrom(lists, 0)
  }

  /** The part of the product whose first value is taken at position `from` or later. */
  function ProductFrom<V>(lists: seq<seq<V>>, from: nat): seq<seq<V>>
    requires |lists| > 0 && from <= |lists[0]|
    decreases |lists|, 0, |lists[0]| - from
  {
    if from == |lists[0]| then []
    else Prefixed([lists[0][from]], Product(lists[1..])) + ProductFrom(lists, from + 1)
  }

  function SizeProduct<V>(lists: seq<seq<V>>): nat {
    if |lists| == 0 then 1 else |lists[0]| * SizeProduct(lists[1..])
  }

  lemma PrefixedAppend<V>(t: seq<V>, a: seq<seq<V>>, b: seq<seq<V>>)
    ensures Prefixed(t, a + b) == Prefixed(t, a) + Prefixed(t, b)
  {
    var l, r := Prefixed(t, a + b), Prefixed(t, a) + Prefixed(t, b);
    assert |l| == |r|;
    forall i | 0 <= i < |l|
      ensures l[i] == r[i]
    {
      if i < |a| {
        assert (a + b)[i] == a[i];
      } else {
        assert (a + b)[i] == b[i - |a|];
      }
    }
  }

  lemma PrefixedTwice<V>(t: seq<V>, u: seq<V>, s: seq<seq<V>>)
    ensures Prefixed(t, Prefixed(u, s)) == Prefixed(t + u, s)
  {
    var l, r := Prefixed(t, Prefixed(u, s)), Prefixed(t + u, s);
    assert |l| == |r|;
    forall i | 0 <= i < |s|
      ensures l[i] == r[i]
    {
      assert t + (u + s[i]) == (t + u) + s[i];
    }
  }

  lemma {:induction false} ProductFromSize<V>(lists: seq<seq<V>>, from: nat)
    requires |lists| > 0 && from <= |lists[0]|
    ensures |ProductFrom(lists, from)| == (|lists[0]| - from) * SizeProduct(lists[1..])
    decreases |lists|, 0, |lists[0]| - from
  {
    if from < |lists[0]| {
      ProductSize(lists[1..]);
      ProductFromSize(lists, from + 1);
      MultiplyPred(|lists[0]| - from, SizeProduct(lists[1..]));
    }
  }

  lemma MultiplyPred(a: nat, b: nat)
    requires a > 0
    ensures a * b == b + (a - 1) * b
  {
  }

  /** The product has one element per combination of choices. */
  lemma {:induction false} ProductSize<V>(lists: seq<seq<V>>)
    ensures |Product(lists)| == SizeProduct(lists)
    decreases |lists|, 1
  {
    if |lists| > 0 {
      ProductFromSize(lists, 0);
    }
  }

  /** An empty value list leaves nothing to combine. */
  lemma EmptyListEmptyProduct<V>(lists: seq<seq<V>>, k: nat)
    requires k < |lists| && |lists[k]| == 0
    ensures Product(lists) == []
  {
    SizeZero(lists, k);
    ProductSize(lists);
  }

  lemma {:induction false} SizeZero<V>(lists: seq<seq<V>>, k: nat)
    requires k < |lists| && |lists[k]| == 0
    ensures SizeProduct(lists) == 0
  {
    if k > 0 {
      SizeZero(lists[1..], k - 1);
    }
  }

  lemma {:induction false} ProductFromMembers<V>(lists: seq<seq<V>>, from: nat, t: seq<V>)
    requires |lists| > 0 && from <= |lists[0]|
    ensures t in ProductFrom(lists, from) <==>
      |t| == |lists| && (exists j :: from <= j < |lists[0]| && t[0] == lists[0][j])
      && (forall k :: 1 <= k < |t| ==> t[k] in lists[k])
    decreases |lists|, 0, |lists[0]| - from
  {
    if from < |lists[0]| {
      ProductFromMembers(lists, from + 1, t);
      PrefixedMembers(lists, from, t);
      if |t| == |lists| && exists j :: from <= j < |lists[0]| && t[0] == lists[0][j] {
        var j :| from <= j < |lists[0]| && t[0] == lists[0][j];
        assert j == from || from + 1 <= j < |lists[0]|;
      }
    }
  }

  /** The part of the product whose first value is taken at position `from`. */
  lemma {:induction false} PrefixedMembers<V>(lists: seq<seq<V>>, from: nat, t: seq<V>)
    requires |lists| > 0 && from < |lists[0]|
    ensures t in Prefixed([lists[0][from]], Product(lists[1..])) <==>
      |t| == |lists| && t[0] == lists[0][from] && (forall k :: 1 <= k < |t| ==> t[k] in lists[k])
    decreases |lists|, 0, 0
  {
    var tails := Product(lists[1..]);
    var head := Prefixed([lists[0][from]], tails);
    if t in head {
      var i :| 0 <= i < |head| && head[i] == t;
      ProductMembers(lists[1..], tails[i]);
      assert forall k :: 1 <= k < |t| ==> t[k] == tails[i][k - 1];
    }
    if |t| == |lists| && t[0] == lists[0][from] && (forall k :: 1 <= k < |t| ==> t[k] in lists[k]) {
      ProductMembers(lists[1..], t[1..]);
      assert forall k :: 0 <= k < |t[1..]| ==> t[1..][k] == t[k + 1];
      var i :| 0 <= i < |tails| && tails[i] == t[1..];
      assert head[i] == t;
    }
  }

  /** Exactly the sequences taking their k-th value from list k belong to the product. */
  lemma {:induction false} ProductMembers<V>(lists: seq<seq<V>>, t: seq<V>)
    ensures t in Product(lists) <==> |t| == |lists| && forall k :: 0 <= k < |t| ==> t[k] in lists[k]
    decreases |lists|, 1
  {
    if |lists| > 0 {
      ProductFromMembers(lists, 0, t);
      if |t| == |lists| && forall k :: 0 <= k < |t| ==> t[k] in lists[k] {
        var j :| 0 <= j < |lists[0]| && lists[0][j] == t[0];
      }
    }
  }

  // ---------------------------------------------------------------------------
  // The odometer's view: depth-first over index prefixes.

  ghost predicate ValidPrefix<V>(lists: seq<seq<V>>, p: seq<int>) {
    |p| <= |lists| && forall k :: 0 <= k < |p| ==> 0 <= p[k] < |lists[k]|
  }

  /** The values the index prefix `p` selects. */
  function Tuple<V>(lists: seq<seq<V>>, p: seq<int>): (t: seq<V>)
    requires ValidPrefix(lists, p)
    ensures |t| == |p| && forall k :: 0 <= k < |p| ==> t[k] == lists[k][p[k]]
  {
    if |p| == 0 then [] else Tuple(lists, p[..|p| - 1]) + [lists[|p| - 1][p[|p| - 1]]]
  }

  /** The configurations below index prefix `p`, in the order the odometer finds them. */
  function Below<V>(lists: seq<seq<V>>, p: seq<int>): seq<seq<V>>
    requires ValidPrefix(lists, p)
    decreases |lists| - |p|, 1, 0
  {
    if |p| == |lists| then [Tuple(lists, p)] else Siblings(lists, p, 0)
  }

  /** The configurations below `p + [j]` for `from <= j`. */
  function Siblings<V>(lists: seq<seq<V>>, p: seq<int>, from: nat): seq<seq<V>>
    requires ValidPrefix(lists, p) && |p| < |lists| && from <= |lists[|p|]|
    decreases |lists| - |p|, 0, |lists[|p|]| - from
  {
    if from == |lists[|p|]| then [] else Below(lists, p + [from]) + Siblings(lists, p, from + 1)
  }

  /** The increments of the odometer below `p`. */
  function Steps<V>(lists: seq<seq<V>>, p: seq<int>): nat
    requires ValidPrefix(lists, p)
    decreases |lists| - |p|, 1, 0
  {
    if |p| == |lists| then 0 else SiblingSteps(lists, p, 0)
  }

  /** The increments at `p` still to come once `from` is the next value, and those below. */
  function SiblingSteps<V>(lists: seq<seq<V>>, p: seq<int>, from: nat): nat
    requires ValidPrefix(lists, p) && |p| < |lists| && from <= |lists[|p|]|
    decreases |lists| - |p|, 0, |lists[|p|]| - from
  {
    if from == |lists[|p|]| then 1 else 1 + Steps(lists, p + [from]) + SiblingSteps(lists, p, from + 1)
  }

  /**
   * What the odometer still produces when the indices above the current level are `p`
   * and the current level last tried `c` (-1: nothing yet).
   */
  function Remaining<V>(lists: seq<seq<V>>, p: seq<int>, c: int): seq<seq<V>>
    requires ValidPrefix(lists, p) && |p| < |lists| && -1 <= c < |lists[|p|]|
    decreases |p|, 1
  {
    Siblings(lists, p, c + 1) + Above(lists, p)
  }

  /** What the levels above `p`'s last index still produce once the current level is done. */
  function Above<V>(lists: seq<seq<V>>, p: seq<int>): seq<seq<V>>
    requires ValidPrefix(lists, p) && |p| < |lists|
    decreases |p|, 0
  {
    if |p| == 0 then [] else Remaining(lists, p[..|p| - 1], p[|p| - 1])
  }

  /** The loop iterations still to run from that position. */
  function RemainingSteps<V>(lists: seq<seq<V>>, p: seq<int>, c: int): nat
    requires ValidPrefix(lists, p) && |p| < |lists| && -1 <= c < |lists[|p|]|
    decreases |p|, 1
  {
    SiblingSteps(lists, p, c + 1) + AboveSteps(lists, p)
  }

  function AboveSteps<V>(lists: seq<seq<V>>, p: seq<int>): nat
    requires ValidPrefix(lists, p) && |p| < |lists|
    decreases |p|, 0
  {
    if |p| == 0 then 0 else RemainingSteps(lists, p[..|p| - 1], p[|p| - 1])
  }

  lemma Associate<V>(a: seq<V>, b: seq<V>, c: seq<V>)
    ensures (a + b) + c == a + (b + c)
  {
  }

  /** The current level has run out: the odometer returns to the level above. */
  lemma ExhaustStep<V>(lists: seq<seq<V>>, p: seq<int>, c: int)
    requires ValidPrefix(lists, p) && |p| < |lists| && -1 <= c && c + 1 == |lists[|p|]|
    ensures |p| > 0 ==> ValidPrefix(lists, p[..|p| - 1]) && -1 <= p[|p| - 1] < |lists[|p| - 1]|
    ensures Remaining(lists, p, c) == Above(lists, p)
    ensures RemainingSteps(lists, p, c) == 1 + AboveSteps(lists, p)
  {
  }

  /** At the last level a fresh value completes one configuration. */
  lemma EmitStep<V>(lists: seq<seq<V>>, p: seq<int>, c: int)
    requires ValidPrefix(lists, p) && |p| == |lists| - 1 && -1 <= c && c + 1 < |lists[|p|]|
    ensures ValidPrefix(lists, p + [c + 1])
    ensures Remaining(lists, p, c) == [Tuple(lists, p + [c + 1])] + Remaining(lists, p, c + 1)
    ensures RemainingSteps(lists, p, c) == 1 + RemainingSteps(lists, p, c + 1)
  {
    EmitProduces(lists, p, c);
    EmitCounts(lists, p, c);
  }

  lemma EmitProduces<V>(lists: seq<seq<V>>, p: seq<int>, c: int)
    requires ValidPrefix(lists, p) && |p| == |lists| - 1 && -1 <= c && c + 1 < |lists[|p|]|
    ensures ValidPrefix(lists, p + [c + 1])
    ensures Remaining(lists, p, c) == [Tuple(lists, p + [c + 1])] + Remaining(lists, p, c + 1)
  {
    var q := p + [c + 1];
    assert ValidPrefix(lists, q);
    var next := Siblings(lists, p, c + 2);
    assert Below(lists, q) == [Tuple(lists, q)];
    assert Siblings(lists, p, c + 1) == [Tuple(lists, q)] + next;
    Associate([Tuple(lists, q)], next, Above(lists, p));
  }

  lemma EmitCounts<V>(lists: seq<seq<V>>, p: seq<int>, c: int)
    requires ValidPrefix(lists, p) && |p| == |lists| - 1 && -1 <= c && c + 1 < |lists[|p|]|
    ensures RemainingSteps(lists, p, c) == 1 + RemainingSteps(lists, p, c + 1)
  {
    var q := p + [c + 1];
    assert ValidPrefix(lists, q);
    assert Steps(lists, q) == 0;
    assert SiblingSteps(lists, p, c + 1) == 1 + SiblingSteps(lists, p, c + 2);
  }

  /** Above the last level a fresh value opens the level below. */
  lemma ForwardStep<V>(lists: seq<seq<V>>, p: seq<int>, c: int)
    requires ValidPrefix(lists, p) && |p| < |lists| - 1 && -1 <= c && c + 1 < |lists[|p|]|
    ensures ValidPrefix(lists, p + [c + 1])
    ensures Remaining(lists, p, c) == Remaining(lists, p + [c + 1], -1)
    ensures RemainingSteps(lists, p, c) == 1 + RemainingSteps(lists, p + [c + 1], -1)
  {
    ForwardProduces(lists, p, c);
    ForwardCounts(lists, p, c);
  }

  lemma ForwardProduces<V>(lists: seq<seq<V>>, p: seq<int>, c: int)
    requires ValidPrefix(lists, p) && |p| < |lists| - 1 && -1 <= c && c + 1 < |lists[|p|]|
    ensures ValidPrefix(lists, p + [c + 1])
    ensures Remaining(lists, p, c) == Remaining(lists, p + [c + 1], -1)
  {
    var q := p + [c + 1];
    assert ValidPrefix(lists, q);
    assert q[..|q| - 1] == p && q[|q| - 1] == c + 1;
    var below, next := Siblings(lists, q, 0), Siblings(lists, p, c + 2);
    assert Above(lists, q) == Remaining(lists, p, c + 1) == next + Above(lists, p);
    assert Below(lists, q) == below;
    assert Siblings(lists, p, c + 1) == below + next;
    Associate(below, next, Above(lists, p));
  }

  lemma ForwardCounts<V>(lists: seq<seq<V>>, p: seq<int>, c: int)
    requires ValidPrefix(lists, p) && |p| < |lists| - 1 && -1 <= c && c + 1 < |lists[|p|]|
    ensures ValidPrefix(lists, p + [c + 1])
    ensures RemainingSteps(lists, p, c) == 1 + RemainingSteps(lists, p + [c + 1], -1)
  {
    var q := p + [c + 1];
    assert ValidPrefix(lists, q);
    assert q[..|q| - 1] == p && q[|q| - 1] == c + 1;
    assert AboveSteps(lists, q) == RemainingSteps(lists, p, c + 1);
    assert Steps(lists, q) == SiblingSteps(lists, q, 0);
    assert SiblingSteps(lists, p, c + 1) == 1 + SiblingSteps(lists, q, 0) + SiblingSteps(lists, p, c + 2);
  }

  /** A state of the odometer: the index array `v` and the current level `index`. */
  ghost predicate Odometer<V>(lists: seq<seq<V>>, v: seq<int>, index: int) {
    |v| == |lists| && -1 <= index < |lists|
    && (index >= 0 ==> ValidPrefix(lists, v[..index]) && -1 <= v[index] < |lists[index]|)
  }

  /** What the odometer still produces from a state. */
  function Pending<V>(lists: seq<seq<V>>, v: seq<int>, index: int): seq<seq<V>>
    requires Odometer(lists, v, index)
  {
    if index >= 0 then Remaining(lists, v[..index], v[index]) else []
  }

  function PendingSteps<V>(lists: seq<seq<V>>, v: seq<int>, index: int): nat
    requires Odometer(lists, v, index)
  {
    if index >= 0 then RemainingSteps(lists, v[..index], v[index]) else 0
  }

  /** One iteration of the odometer loop: increment, then go up, emit, or go down. */
  function Turn(lengths: seq<nat>, v: seq<int>, index: int): (seq<int>, int)
    requires |v| == |lengths| && 0 <= index < |lengths|
  {
    var w := v[index := v[index] + 1];
    if w[index] == lengths[index] then (w, index - 1)
    else if index == |lengths| - 1 then (w, index)
    else (w[index + 1 := -1], index + 1)
  }

  function Lengths<V>(lists: seq<seq<V>>): (r: seq<nat>)
    ensures |r| == |lists| && forall k :: 0 <= k < |lists| ==> r[k] == |lists[k]|
  {
    seq(|lists|, k requires 0 <= k < |lists| => |lists[k]|)
  }

  /** Whether the turn from `index` completes a configuration. */
  predicate Emits<V>(lists: seq<seq<V>>, v: seq<int>, index: int)
    requires |v| == |lists| && 0 <= index < |lists|
  {
    index == |lists| - 1 && v[index] + 1 < |lists[index]|
  }

  /** A turn that exhausts the current level moves up. */
  lemma TurnUp<V>(lists: seq<seq<V>>, v: seq<int>, index: int, w: seq<int>)
    requires Odometer(lists, v, index) && index >= 0 && v[index] + 1 == |lists[index]|
    requires w == v[index := v[index] + 1]
    ensures Odometer(lists, w, index - 1)
    ensures PendingSteps(lists, w, index - 1) < PendingSteps(lists, v, index)
    ensures Pending(lists, v, index) == Pending(lists, w, index - 1)
  {
    var p, c := v[..index], v[index];
    ExhaustStep(lists, p, c);
    if index > 0 {
      assert w[..index - 1] == p[..index - 1];
    }
  }

  /** A turn at the last level with a value left completes a configuration. */
  lemma TurnEmit<V>(lists: seq<seq<V>>, v: seq<int>, index: int, w: seq<int>)
    requires Odometer(lists, v, index) && 0 <= index == |lists| - 1 && v[index] + 1 < |lists[index]|
    requires w == v[index := v[index] + 1]
    ensures Odometer(lists, w, index) && ValidPrefix(lists, w)
    ensures PendingSteps(lists, w, index) < PendingSteps(lists, v, index)
    ensures Pending(lists, v, index) == [Tuple(lists, w)] + Pending(lists, w, index)
  {
    var p, c := v[..index], v[index];
    EmitStep(lists, p, c);
    assert w[..index] == p;
    assert w == p + [c + 1];
  }

  /** A turn above the last level with a value left opens the level below. */
  lemma TurnDown<V>(lists: seq<seq<V>>, v: seq<int>, index: int, w: seq<int>)
    requires Odometer(lists, v, index) && 0 <= index < |lists| - 1 && v[index] + 1 < |lists[index]|
    requires w == v[index := v[index] + 1][index + 1 := -1]
    ensures Odometer(lists, w, index + 1)
    ensures PendingSteps(lists, w, index + 1) < PendingSteps(lists, v, index)
    ensures Pending(lists, v, index) == Pending(lists, w, index + 1)
  {
    var p, c := v[..index], v[index];
    ForwardStep(lists, p, c);
    assert w[..index + 1] == p + [c + 1];
  }

  /**
   * Each turn keeps the odometer a valid state, takes one of the steps that remain, and
   * emits exactly the next configuration still pending, if it emits one.
   */
  lemma TurnStep<V>(lists: seq<seq<V>>, v: seq<int>, index: int, w: seq<int>, j: int)
    requires Odometer(lists, v, index) && index >= 0
    requires (w, j) == Turn(Lengths(lists), v, index)
    ensures Odometer(lists, w, j)
    ensures PendingSteps(lists, w, j) < PendingSteps(lists, v, index)
    ensures Emits(lists, v, index) ==>
      ValidPrefix(lists, w) && Pending(lists, v, index) == [Tuple(lists, w)] + Pending(lists, w, j)
    ensures !Emits(lists, v, index) ==> Pending(lists, v, index) == Pending(lists, w, j)
  {
    var u := v[index := v[index] + 1];
    assert Lengths(lists)[index] == |lists[index]|;
    if v[index] + 1 == |lists[index]| {
      assert w == u && j == index - 1;
      TurnUp(lists, v, index, w);
    } else if index == |lists| - 1 {
      assert w == u && j == index;
      TurnEmit(lists, v, index, w);
    } else {
      assert w == u[index + 1 := -1] && j == index + 1;
      TurnDown(lists, v, index, w);
    }
  }

  /** The depth-first order is the product order. */
  lemma {:induction false} BelowIsProduct<V>(lists: seq<seq<V>>, p: seq<int>)
    requires ValidPrefix(lists, p)
    ensures Below(lists, p) == Prefixed(Tuple(lists, p), Product(lists[|p|..]))
    decreases |lists| - |p|, 1, 0
  {
    if |p| == |lists| {
      assert lists[|p|..] == [];
      assert Tuple(lists, p) + [] == Tuple(lists, p);
    } else {
      SiblingsIsProduct(lists, p, 0);
    }
  }

  lemma {:induction false} SiblingsIsProduct<V>(lists: seq<seq<V>>, p: seq<int>, from: nat)
    requires ValidPrefix(lists, p) && |p| < |lists| && from <= |lists[|p|]|
    ensures Siblings(lists, p, from) == Prefixed(Tuple(lists, p), ProductFrom(lists[|p|..], from))
    decreases |lists| - |p|, 0, |lists[|p|]| - from
  {
    var rest := lists[|p|..];
    if from < |lists[|p|]| {
      var q := p + [from];
      assert q[..|p|] == p;
      BelowIsProduct(lists, q);
      SiblingsIsProduct(lists, p, from + 1);
      assert rest[1..] == lists[|q|..];
      PrefixedTwice(Tuple(lists, p), [rest[0][from]], Product(rest[1..]));
      PrefixedAppend(Tuple(lists, p), Prefixed([rest[0][from]], Product(rest[1..])), ProductFrom(rest, from + 1));
    }
  }

  /** From the root, the odometer's order is exactly the product. */
  lemma BelowRootIsProduct<V>(lists: seq<seq<V>>)
    ensures Below(lists, []) == Product(lists)
    ensures forall t :: t in Product(lists) ==> |t| == |lists|
  {
    BelowIsProduct(lists, []);
    assert lists[0..] == lists;
    var s := Product(lists);
    assert Prefixed([], s) == s by {
      forall i | 0 <= i < |s|
        ensures Prefixed([], s)[i] == s[i]
      {
        assert [] + s[i] == s[i];
      }
    }
    forall t | t in Product(lists)
      ensures |t| == |lists|
    {
      ProductMembers(lists, t);
    }
  }

  // ---------------------------------------------------------------------------
  // Descriptions.

  /** `ToString()` of a boxed argument. */
  function ArgumentText(a: Argument): string {
    match a
    case IntArgument(i) => IntText(i)
    case UIntArgument(u) => NatText(u)
    case BoolArgument(b) => if b then "True" else "False"
  }

  /** `DisplayName (p0 = v0`: the opening of a description. */
  function Opening(displayName: string, names: seq<string>, values: seq<Argument>): string
    requires 0 < |names| && 0 < |values|
  {
    displayName + " (" + names[0] + " = " + ArgumentText(values[0])
  }

  /** `, pk = vk`. */
  function Item(names: seq<string>, values: seq<Argument>, k: nat): string
    requires k < |names| && k < |values|
  {
    ", " + names[k] + " = " + ArgumentText(values[k])
  }

  /** The opening followed by the items 1 .. k-1. */
  function Listed(displayName: string, names: seq<string>, values: seq<Argument>, k: nat): string
    requires 0 < k <= |names| && k <= |values|
  {
    if k == 1 then Opening(displayName, names, values)
    else Listed(displayName, names, values, k - 1) + Item(names, values, k - 1)
  }

  lemma ListedNext(displayName: string, names: seq<string>, values: seq<Argument>, k: nat)
    requires 0 < k < |names| && k < |values|
    ensures Listed(displayName, names, values, k + 1) == Listed(displayName, names, values, k) + Item(names, values, k)
  {
  }

  /** `DisplayName (p1 = v1, p2 = v2, ...)`. */
  function Description(displayName: string, names: seq<string>, values: seq<Argument>): string
    requires 0 < |names| == |values|
  {
    Listed(displayName, names, values, |names|) + ")"
  }

  /** The serialized form of the configuration `t`. */
  function MakeRequest(typeFullName: string, displayName: string, names: seq<string>,
                       t: seq<Argument>): SerializedPredictorInfo
    requires 0 < |names| == |t|
  {
    SerializedPredictorInfo(typeFullName, Description(displayName, names, t), t)
  }

  function Requests(typeFullName: string, displayName: string, names: seq<string>,
                    tuples: seq<seq<Argument>>): seq<SerializedPredictorInfo>
    requires 0 < |names| && forall t :: t in tuples ==> |t| == |names|
  {
    seq(|tuples|, i requires 0 <= i < |tuples| => MakeRequest(typeFullName, displayName, names, tuples[i]))
  }

  // ---------------------------------------------------------------------------
  // The odometer.

  /** The argument array of a found solution: list k at its current index, for each k. */
  method BuildArguments(propertyValues: seq<seq<Argument>>, valueIndex: array<int>)
    returns (arguments: seq<Argument>)
    requires valueIndex.Length == |propertyValues|
    requires ValidPrefix(propertyValues, valueIndex[..])
    ensures arguments == Tuple(propertyValues, valueIndex[..])
  {
    arguments := [];
    var k := 0;
    while k < |propertyValues|
      invariant 0 <= k <= |propertyValues|
      invariant ValidPrefix(propertyValues, valueIndex[..k])
      invariant arguments == Tuple(propertyValues, valueIndex[..k])
    {
      assert valueIndex[..k + 1][..k] == valueIndex[..k];
      arguments := arguments + [propertyValues[k][valueIndex[k]]];
      k := k + 1;
    }
    assert valueIndex[..k] == valueIndex[..];
  }

  method BuildDescription(displayName: string, names: seq<string>, values: seq<Argument>)
    returns (description: string)
    requires 0 < |names| == |values|
    ensures description == Description(displayName, names, values)
  {
    description := Opening(displayName, names, values);
    var k := 1;
    while k < |names|
      invariant 1 <= k <= |names|
      invariant description == Listed(displayName, names, values, k)
    {
      ListedNext(displayName, names, values, k);
      description := description + Item(names, values, k);
      k := k + 1;
    }
    assert k == |names|;
    description := description + ")";
  }

  /** `new int[n]` followed by setting every entry to -1. */
  method NewIndexArray(n: nat) returns (valueIndex: array<int>)
    ensures fresh(valueIndex) && valueIndex.Length == n
    ensures forall k :: 0 <= k < n ==> valueIndex[k] == -1
  {
    valueIndex := new int[n];
    var index := 0;
    while index < n
      invariant 0 <= index <= n
      invariant forall k :: 0 <= k < index ==> valueIndex[k] == -1
    {
      valueIndex[index] := -1;
      index := index + 1;
    }
  }

  /** The request for the configuration the index array currently selects. */
  method Emit(typeFullName: string, displayName: string,
              propertyNames: seq<string>, propertyValues: seq<seq<Argument>>, valueIndex: array<int>)
    returns (arguments: seq<Argument>, request: SerializedPredictorInfo)
    requires 0 < |propertyNames| == |propertyValues| == valueIndex.Length
    requires ValidPrefix(propertyValues, valueIndex[..])
    ensures arguments == Tuple(propertyValues, valueIndex[..]) && |arguments| == |propertyNames|
    ensures request == MakeRequest(typeFullName, displayName, propertyNames, arguments)
  {
    arguments := BuildArguments(propertyValues, valueIndex);
    var description := BuildDescription(displayName, propertyNames, arguments);
    request := SerializedPredictorInfo(typeFullName, description, arguments);
  }

  /** The index-array part of one turn. */
  method TurnArray(lengths: seq<nat>, valueIndex: array<int>, index: int) returns (next: int)
    requires valueIndex.Length == |lengths| && 0 <= index < |lengths|
    modifies valueIndex
    ensures (valueIndex[..], next) == Turn(lengths, old(valueIndex[..]), index)
  {
    valueIndex[index] := valueIndex[index] + 1;
    if valueIndex[index] == lengths[index] {
      next := index - 1;
    } else if index == |lengths| - 1 {
      next := index;
    } else {
      next := index + 1;
      valueIndex[next] := -1;
    }
  }

  /**
   * One pass of the odometer loop body: turn the index array and, when that completes a
   * configuration, build its request.
   */
  method Advance(typeFullName: string, displayName: string, propertyNames: seq<string>,
                 propertyValues: seq<seq<Argument>>, lengths: seq<nat>, valueIndex: array<int>, index: int)
    returns (next: int, emitted: bool, arguments: seq<Argument>, request: SerializedPredictorInfo)
    requires 0 < |propertyNames| == |propertyValues| && lengths == Lengths(propertyValues)
    requires Odometer(propertyValues, valueIndex[..], index) && index >= 0
    modifies valueIndex
    ensures Odometer(propertyValues, valueIndex[..], next)
    ensures PendingSteps(propertyValues, valueIndex[..], next)
          < old(PendingSteps(propertyValues, valueIndex[..], index))
    ensures emitted ==> old(Pending(propertyValues, valueIndex[..], index))
                        == [arguments] + Pending(propertyValues, valueIndex[..], next)
    ensures !emitted ==> old(Pending(propertyValues, valueIndex[..], index))
                         == Pending(propertyValues, valueIndex[..], next)
    ensures emitted ==> |arguments| == |propertyNames|
                        && request == MakeRequest(typeFullName, displayName, propertyNames, arguments)
  {
    ghost var v := valueIndex[..];
    next := TurnArray(lengths, valueIndex, index);
    TurnStep(propertyValues, v, index, valueIndex[..], next);
    emitted := next == index;
    if emitted {
      assert Emits(propertyValues, v, index);
      arguments, request := Emit(typeFullName, displayName, propertyNames, propertyValues, valueIndex);
    } else {
      arguments, request := [], SerializedPredictorInfo(typeFullName, "", []);
    }
  }

  /** The odometer loop, from level 0 with no value tried yet. */
  method Enumerate(typeFullName: string, displayName: string,
                   propertyNames: seq<string>, propertyValues: seq<seq<Argument>>, valueIndex: array<int>)
    returns (requests: seq<SerializedPredictorInfo>, ghost found: seq<seq<Argument>>)
    requires 0 < |propertyNames| == |propertyValues| == valueIndex.Length && valueIndex[0] == -1
    modifies valueIndex
    ensures found == Below(propertyValues, [])
    ensures forall t :: t in found ==> |t| == |propertyNames|
    ensures requests == Requests(typeFullName, displayName, propertyNames, found)
  {
    var lengths := Lengths(propertyValues);
    var index := 0;
    requests := [];
    found := [];
    ghost var all := Below(propertyValues, []);
    StartPending(propertyValues, valueIndex[..]);
    ghost var rest := Pending(propertyValues, valueIndex[..], index);
    while index >= 0
      invariant Odometer(propertyValues, valueIndex[..], index)
      invariant rest == Pending(propertyValues, valueIndex[..], index)
      invariant found + rest == all
      invariant forall t :: t in found ==> |t| == |propertyNames|
      invariant requests == Requests(typeFullName, displayName, propertyNames, found)
      decreases PendingSteps(propertyValues, valueIndex[..], index)
    {
      var emitted, arguments, request;
      index, emitted, arguments, request :=
        Advance(typeFullName, displayName, propertyNames, propertyValues, lengths, valueIndex, index);
      ghost var next := Pending(propertyValues, valueIndex[..], index);
      if emitted {
        Associate(found, [arguments], next);
        RequestsAppend(typeFullName, displayName, propertyNames, found, arguments);
        requests := requests + [request];
        found := found + [arguments];
      }
      rest := next;
    }
  }

  /** The fresh index array starts the odometer at the root. */
  lemma StartPending<V>(lists: seq<seq<V>>, v: seq<int>)
    requires 0 < |lists| == |v| && v[0] == -1
    ensures Odometer(lists, v, 0) && Pending(lists, v, 0) == Below(lists, [])
  {
    assert v[..0] == [];
    assert Above(lists, []) == [];
  }

  /** One more configuration adds its request at the end. */
  lemma RequestsAppend(typeFullName: string, displayName: string, names: seq<string>,
                       tuples: seq<seq<Argument>>, t: seq<Argument>)
    requires 0 < |names| == |t| && forall u :: u in tuples ==> |u| == |names|
    ensures forall u :: u in tuples + [t] ==> |u| == |names|
    ensures Requests(typeFullName, displayName, names, tuples + [t])
         == Requests(typeFullName, displayName, names, tuples) + [MakeRequest(typeFullName, displayName, names, t)]
  {
  }

  /** The configurations of a predictor type, or the failure of a type without properties. */
  function PredictorRequests(typeFullName: string, displayName: string,
                             propertyNames: seq<string>, propertyValues: seq<seq<Argument>>)
    : Result<seq<SerializedPredictorInfo>, string>
    requires |propertyNames| == |propertyValues|
  {
    if |propertyValues| == 0 then Failure("IndexOutOfRangeException")
    else
      BelowRootIsProduct(propertyValues);
      Success(Requests(typeFullName, displayName, propertyNames, Product(propertyValues)))
  }

  /**
   * `getPredictorRequests`: one configuration per element of the product of the value
   * lists, in product order. With no properties at all, the first `valueIndex[0]++`
   * is out of range (Failure).
   */
  method GetPredictorRequests(typeFullName: string, displayName: string,
                              propertyNames: seq<string>, propertyValues: seq<seq<Argument>>)
    returns (r: Result<seq<SerializedPredictorInfo>, string>)
    requires |propertyNames| == |propertyValues|
    ensures r.Failure? <==> |propertyValues| == 0
    ensures r.Success? ==>
      (forall t :: t in Product(propertyValues) ==> |t| == |propertyNames|)
      && r.value == Requests(typeFullName, displayName, propertyNames, Product(propertyValues))
    ensures r == PredictorRequests(typeFullName, displayName, propertyNames, propertyValues)
  {
    var valueIndex := NewIndexArray(|propertyValues|);
    if |propertyValues| == 0 {
      return Failure("IndexOutOfRangeException");
    }
    var requests, found := Enumerate(typeFullName, displayName, propertyNames, propertyValues, valueIndex);
    BelowRootIsProduct(propertyValues);
    r := Success(requests);
  }
}
