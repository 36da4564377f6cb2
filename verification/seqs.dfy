/** Order-preserving list operations: Python's `filter` and `reversed`. */
module Seqs {

  /** `list(filter(p, xs))` */
  function Filter<T>(xs: seq<T>, p: T -> bool): (r: seq<T>)
    ensures |r| <= |xs|
    ensures forall i :: 0 <= i < |r| ==> p(r[i])
    ensures forall i :: 0 <= i < |xs| && p(xs[i]) ==> xs[i] in r
  {
    if |xs| == 0 then []
    else if p(xs[0]) then [xs[0]] + Filter(xs[1..], p)
    else Filter(xs[1..], p)
  }

  /** Every kept element comes from the list. */
  lemma {:induction false} FilterSubset<T>(xs: seq<T>, p: T -> bool)
    ensures forall i :: 0 <= i < |Filter(xs, p)| ==> Filter(xs, p)[i] in xs
  {
    if |xs| > 0 {
      FilterSubset(xs[1..], p);
      forall i | 0 <= i < |Filter(xs, p)| ensures Filter(xs, p)[i] in xs {
        if !p(xs[0]) || i > 0 {
          var t := Filter(xs[1..], p);
          var j := if p(xs[0]) then i - 1 else i;
          assert Filter(xs, p)[i] == t[j];
          var n :| 0 <= n < |xs[1..]| && xs[1..][n] == t[j];
          assert xs[n + 1] == t[j];
        }
      }
    }
  }

  /** Filtering a concatenation filters each part in place: the kept elements
      keep their relative order. */
  lemma {:induction false} FilterAppend<T>(xs: seq<T>, ys: seq<T>, p: T -> bool)
    ensures Filter(xs + ys, p) == Filter(xs, p) + Filter(ys, p)
  {
    if |xs| == 0 {
      assert xs + ys == ys;
    } else {
      assert (xs + ys)[1..] == xs[1..] + ys;
      FilterAppend(xs[1..], ys, p);
    }
  }

  /** The positions strictly increase. */
  predicate Increasing(pos: seq<nat>) {
    forall k, l :: 0 <= k < l < |pos| ==> pos[k] < pos[l]
  }

  /** Where the kept elements come from: increasing positions of `xs`, one
      per element that passes. */
  lemma {:induction false} FilterPositions<T>(xs: seq<T>, p: T -> bool) returns (pos: seq<nat>)
    ensures |pos| == |Filter(xs, p)| && Increasing(pos)
    ensures forall k {:trigger pos[k]} :: 0 <= k < |pos| ==> pos[k] < |xs| && Filter(xs, p)[k] == xs[pos[k]]
    ensures forall i :: 0 <= i < |xs| && p(xs[i]) ==> i in pos
  {
    if |xs| == 0 {
      return [];
    }
    var rest := FilterPositions(xs[1..], p);
    var shifted := Shift(rest);
    ShiftedPositions(xs, p, rest);
    if p(xs[0]) {
      pos := [0] + shifted;
      ConsPositions(xs, p, shifted);
    } else {
      pos := shifted;
    }
  }

  /** A kept first element goes in front of the tail's positions. */
  lemma ConsPositions<T>(xs: seq<T>, p: T -> bool, shifted: seq<nat>)
    requires |xs| > 0 && p(xs[0]) && |shifted| == |Filter(xs[1..], p)|
    requires Increasing(shifted) && forall k :: 0 <= k < |shifted| ==> shifted[k] > 0
    requires forall k {:trigger shifted[k]} :: 0 <= k < |shifted| ==> shifted[k] < |xs| && Filter(xs[1..], p)[k] == xs[shifted[k]]
    ensures Increasing([0] + shifted)
    ensures forall k {:trigger ([0] + shifted)[k]} :: 0 <= k < |shifted| + 1 ==>
      ([0] + shifted)[k] < |xs| && Filter(xs, p)[k] == xs[([0] + shifted)[k]]
  {
    var pos := [0] + shifted;
    ConsIncreasing(shifted);
    forall k {:trigger pos[k]} | 0 < k < |pos| ensures pos[k] < |xs| && Filter(xs, p)[k] == xs[pos[k]] {
      assert pos[k] == shifted[k - 1];
      assert Filter(xs, p)[k] == Filter(xs[1..], p)[k - 1];
    }
  }

  /** The positions of the tail's kept elements, one further on, are positions
      in the whole list. */
  lemma ShiftedPositions<T>(xs: seq<T>, p: T -> bool, rest: seq<nat>)
    requires |xs| > 0 && |rest| == |Filter(xs[1..], p)| && Increasing(rest)
    requires forall k {:trigger rest[k]} :: 0 <= k < |rest| ==> rest[k] < |xs[1..]| && Filter(xs[1..], p)[k] == xs[1..][rest[k]]
    requires forall i :: 0 <= i < |xs[1..]| && p(xs[1..][i]) ==> i in rest
    ensures Increasing(Shift(rest)) && forall k :: 0 <= k < |rest| ==> Shift(rest)[k] > 0
    ensures forall k {:trigger Shift(rest)[k]} :: 0 <= k < |rest| ==> Shift(rest)[k] < |xs| && Filter(xs[1..], p)[k] == xs[Shift(rest)[k]]
    ensures forall i :: 0 < i < |xs| && p(xs[i]) ==> i in Shift(rest)
  {
    var shifted := Shift(rest);
    ShiftIncreasing(rest);
    forall k {:trigger shifted[k]} | 0 <= k < |rest| ensures shifted[k] < |xs| && Filter(xs[1..], p)[k] == xs[shifted[k]] {
      assert xs[1..][rest[k]] == xs[shifted[k]];
    }
    forall i | 0 < i < |xs| && p(xs[i]) ensures i in shifted {
      assert xs[1..][i - 1] == xs[i];
      var k :| 0 <= k < |rest| && rest[k] == i - 1;
      assert shifted[k] == i;
    }
  }

  /** Increasing positions are in the order of their values. */
  lemma IncreasingIndex(pos: seq<nat>, k: nat, l: nat)
    requires Increasing(pos) && k < |pos| && l < |pos|
    ensures pos[k] < pos[l] ==> k < l
  {
    if l < k {
      assert pos[l] < pos[k];
    }
  }

  /** Position 0 before positive increasing positions keeps them increasing. */
  lemma ConsIncreasing(pos: seq<nat>)
    requires Increasing(pos) && forall k :: 0 <= k < |pos| ==> pos[k] > 0
    ensures Increasing([0] + pos)
  {
    var r := [0] + pos;
    forall k, l | 0 <= k < l < |r| ensures r[k] < r[l] {
      assert r[l] == pos[l - 1];
      if k > 0 {
        assert r[k] == pos[k - 1];
      }
    }
  }

  /** Every position one further on. */
  function Shift(pos: seq<nat>): (r: seq<nat>)
    ensures |r| == |pos| && forall k :: 0 <= k < |pos| ==> r[k] == pos[k] + 1
  {
    seq(|pos|, k requires 0 <= k < |pos| => pos[k] + 1)
  }

  lemma ShiftIncreasing(pos: seq<nat>)
    requires Increasing(pos)
    ensures Increasing(Shift(pos)) && forall k :: 0 <= k < |pos| ==> Shift(pos)[k] > 0
  {
  }

  /** A list all of whose elements pass is its own filter. */
  lemma {:induction false} FilterAll<T>(xs: seq<T>, p: T -> bool)
    requires forall i :: 0 <= i < |xs| ==> p(xs[i])
    ensures Filter(xs, p) == xs
  {
    if |xs| > 0 {
      FilterAll(xs[1..], p);
    }
  }

  /** A list none of whose elements pass filters to nothing. */
  lemma {:induction false} FilterNone<T>(xs: seq<T>, p: T -> bool)
    requires forall i :: 0 <= i < |xs| ==> !p(xs[i])
    ensures Filter(xs, p) == []
  {
    if |xs| > 0 {
      FilterNone(xs[1..], p);
    }
  }

  /** Filtering out a middle part whose elements all fail keeps the rest. */
  lemma FilterAroundMiddle<T>(a: seq<T>, m: seq<T>, b: seq<T>, p: T -> bool)
    requires forall i :: 0 <= i < |a| ==> p(a[i])
    requires forall i :: 0 <= i < |b| ==> p(b[i])
    requires forall i :: 0 <= i < |m| ==> !p(m[i])
    ensures Filter(a + m + b, p) == a + b
  {
    FilterAppend(a + m, b, p);
    FilterAppend(a, m, p);
    FilterAll(a, p);
    FilterAll(b, p);
    FilterNone(m, p);
    calc {
      Filter(a + m + b, p);
      Filter(a + m, p) + Filter(b, p);
      Filter(a, p) + Filter(m, p) + Filter(b, p);
      a + [] + b;
      { assert a + [] == a; }
      a + b;
    }
  }

  /** Filtering twice is filtering once. */
  lemma FilterIdempotent<T>(xs: seq<T>, p: T -> bool)
    ensures Filter(Filter(xs, p), p) == Filter(xs, p)
  {
    FilterAll(Filter(xs, p), p);
  }

  /** `list(reversed(xs))` */
  function Reverse<T>(xs: seq<T>): (r: seq<T>)
    ensures |r| == |xs|
    ensures forall i :: 0 <= i < |xs| ==> r[i] == xs[|xs| - 1 - i]
  {
    if |xs| == 0 then [] else Reverse(xs[1..]) + [xs[0]]
  }

  lemma ReverseReverse<T>(xs: seq<T>)
    ensures Reverse(Reverse(xs)) == xs
  {
  }

  /** `functools.reduce(f, xs, init)`: a left fold. */
  function FoldLeft<A, T>(f: (A, T) -> A, init: A, xs: seq<T>): A
    decreases |xs|
  {
    if |xs| == 0 then init else FoldLeft(f, f(init, xs[0]), xs[1..])
  }
}
