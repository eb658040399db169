/** Searches and folds over integer sequences, as the source gets them from
    `Math.max(...xs)`, `Array.prototype.findIndex` and `Array.prototype.reduce`. */
module Seqs {

  /** The largest element of a non-empty sequence (`Math.max(...xs)`). */
  function Max(xs: seq<int>): (m: int)
    requires |xs| > 0
    ensures m in xs
    ensures forall k :: 0 <= k < |xs| ==> xs[k] <= m
  {
    if |xs| == 1 then xs[0]
    else
      var rest := Max(xs[1..]);
      if xs[0] >= rest then xs[0] else rest
  }

  /** The position of the first element equal to `v`, or -1 when there is none
      (`findIndex` with an equality test). */
  function IndexOf(xs: seq<int>, v: int): (i: int)
    ensures -1 <= i < |xs|
    ensures i == -1 <==> v !in xs
    ensures 0 <= i ==> xs[i] == v && forall j :: 0 <= j < i ==> xs[j] != v
  {
    if xs == [] then -1
    else if xs[0] == v then 0
    else
      var i := IndexOf(xs[1..], v);
      if i == -1 then -1 else i + 1
  }

  /** The sum with initial value 0 (`reduce((acc, x) => acc + x, 0)`). The source
      folds from the left and this definition nests to the right; on unbounded
      integers addition is associative, so the two give the same number. */
  function Sum(xs: seq<int>): int
  {
    if xs == [] then 0 else xs[0] + Sum(xs[1..])
  }

  /** Summing distributes over concatenation, so a total is the total of its parts. */
  lemma {:induction false} SumAppend(xs: seq<int>, ys: seq<int>)
    ensures Sum(xs + ys) == Sum(xs) + Sum(ys)
  {
    if xs == [] {
      assert xs + ys == ys;
    } else {
      assert (xs + ys)[1..] == xs[1..] + ys;
      SumAppend(xs[1..], ys);
    }
  }

  /** A sum of non-negative numbers is non-negative. */
  lemma {:induction false} SumNonNegative(xs: seq<int>)
    requires forall k :: 0 <= k < |xs| ==> 0 <= xs[k]
    ensures 0 <= Sum(xs)
  {
    if xs != [] {
      SumNonNegative(xs[1..]);
    }
  }

  /** Searching a sequence extended at the end finds the same position as before
      when the value already occurs, the new last position when only the new
      element matches, and nothing otherwise. */
  lemma IndexOfSnoc(xs: seq<int>, y: int, v: int)
    ensures IndexOf(xs + [y], v) ==
      if v in xs then IndexOf(xs, v) else if y == v then |xs| else -1
  {
    var ys := xs + [y];
    var i := IndexOf(ys, v);
    if v in xs {
      var i0 := IndexOf(xs, v);
      assert ys[i0] == v;
      assert i <= i0;
      assert xs[i] == ys[i];
    } else if y == v {
      assert ys[|xs|] == v;
    } else {
      assert v !in ys;
    }
  }
}
