/** Locating the at-the-money strike and cutting the window of rows around it. */
module Anchor {
  import opened Wrappers
  import opened Seqs
  import opened Chain

  function Abs(x: real): real
  {
    if x < 0.0 then -x else x
  }

  /** `Math.abs(item.strikePrice - underlyingValue)`. */
  function Distance(q: Quote, underlyingValue: real): real
  {
    Abs(q.strikePrice as real - underlyingValue)
  }

  /** The position of the strike nearest to the index price; among equally near
      strikes the earliest one, since a later one must be strictly nearer to win. */
  function ClosestIndex(s: seq<Quote>, underlyingValue: real): (i: nat)
    requires s != []
    ensures i < |s|
    ensures forall j :: 0 <= j < |s| ==> Distance(s[i], underlyingValue) <= Distance(s[j], underlyingValue)
    ensures forall j :: 0 <= j < i ==> Distance(s[i], underlyingValue) < Distance(s[j], underlyingValue)
  {
    if |s| == 1 then 0
    else
      var k := ClosestIndex(s[..|s| - 1], underlyingValue);
      if Distance(s[|s| - 1], underlyingValue) < Distance(s[k], underlyingValue) then |s| - 1 else k
  }

  /** `closestStrike` after the scan: the nearest strike, or the initial 0 when
      there are no rows. */
  function AnchorStrike(allData: seq<Quote>, underlyingValue: real): int
  {
    if allData == [] then 0 else allData[ClosestIndex(allData, underlyingValue)].strikePrice
  }

  /** The scan as the source runs it: `closestStrike` starts at 0 and
      `minDifference` at "larger than any distance" (None); a row replaces the
      current best only when it is strictly nearer. */
  method ClosestStrike(allData: seq<Quote>, underlyingValue: real) returns (closestStrike: int)
    ensures closestStrike == AnchorStrike(allData, underlyingValue)
  {
    closestStrike := 0;
    var minDifference: Option<real> := None;
    ghost var best: nat := 0;
    for i := 0 to |allData|
      invariant minDifference.None? <==> i == 0
      invariant i == 0 ==> closestStrike == 0
      invariant 0 < i ==> best == ClosestIndex(allData[..i], underlyingValue)
      invariant 0 < i ==> best < i && closestStrike == allData[best].strikePrice
      invariant 0 < i ==> minDifference == Some(Distance(allData[best], underlyingValue))
    {
      assert allData[..i + 1][..i] == allData[..i];
      var difference := Distance(allData[i], underlyingValue);
      if minDifference.None? || difference < minDifference.value {
        minDifference := Some(difference);
        closestStrike := allData[i].strikePrice;
        best := i;
      }
    }
    assert allData[..|allData|] == allData;
  }

  /** `Math.max(0, closestStrikeIndex - 8)`. */
  function WindowStart(ci: int): nat
  {
    if ci - 8 < 0 then 0 else ci - 8
  }

  /** `Math.min(allData.length, closestStrikeIndex + 9)`. */
  function WindowEnd(n: nat, ci: int): int
  {
    if ci + 9 < n then ci + 9 else n
  }

  /** `allData.slice(startIndex, endIndex)`: the rows at most 8 positions away
      from position `ci` (`findIndex` gives -1 or a valid position). */
  function Window(allData: seq<Quote>, ci: int): (w: seq<Quote>)
    requires -1 <= ci < |allData|
    ensures |w| <= 17 && WindowStart(ci) + |w| <= |allData|
    ensures forall k :: 0 <= k < |w| ==>
      w[k] == allData[WindowStart(ci) + k] && ci - 8 <= WindowStart(ci) + k <= ci + 8
    ensures forall k :: 0 <= k < |allData| && ci - 8 <= k <= ci + 8 ==>
      WindowStart(ci) <= k < WindowStart(ci) + |w| && w[k - WindowStart(ci)] == allData[k]
  {
    allData[WindowStart(ci)..WindowEnd(|allData|, ci)]
  }

  /** `findIndex` on the nearest strike finds the nearest row itself, because
      strikes are distinct. */
  lemma AnchorIndex(allData: seq<Quote>, underlyingValue: real)
    requires DistinctStrikes(allData)
    ensures allData == [] ==> IndexOf(StrikeList(allData), AnchorStrike(allData, underlyingValue)) == -1
    ensures allData != [] ==>
      IndexOf(StrikeList(allData), AnchorStrike(allData, underlyingValue)) == ClosestIndex(allData, underlyingValue)
  {
    if allData != [] {
      var i := ClosestIndex(allData, underlyingValue);
      var x := allData[i].strikePrice;
      var j := IndexOf(StrikeList(allData), x);
      assert StrikeList(allData)[i] == x;
      assert 0 <= j <= i;
      assert allData[j].strikePrice == x;
    }
  }

  /** The selected rows (`filteredData`). */
  function Selected(allData: seq<Quote>, underlyingValue: real): seq<Quote>
  {
    Window(allData, IndexOf(StrikeList(allData), AnchorStrike(allData, underlyingValue)))
  }

  /** The window holds at most 17 rows, and is empty only when there are no
      rows at all. */
  lemma SelectedSize(allData: seq<Quote>, underlyingValue: real)
    requires DistinctStrikes(allData)
    ensures |Selected(allData, underlyingValue)| <= 17
    ensures Selected(allData, underlyingValue) == [] <==> allData == []
  {
    AnchorIndex(allData, underlyingValue);
  }

  /** The rows of a window have distinct strikes when all the rows do. */
  lemma SelectedDistinct(allData: seq<Quote>, underlyingValue: real)
    requires DistinctStrikes(allData)
    ensures DistinctStrikes(Selected(allData, underlyingValue))
  {
    var ci := IndexOf(StrikeList(allData), AnchorStrike(allData, underlyingValue));
    var w := Window(allData, ci);
    forall j, k | 0 <= j < k < |w| ensures w[j].strikePrice != w[k].strikePrice {
      assert w[j] == allData[WindowStart(ci) + j] && w[k] == allData[WindowStart(ci) + k];
    }
  }

  /** On rows with distinct strikes the window is the clamped slice of radius 8
      around the nearest strike, and holds the nearest row. */
  lemma SelectedAroundAnchor(allData: seq<Quote>, underlyingValue: real)
    requires DistinctStrikes(allData) && allData != []
    ensures var i, w := ClosestIndex(allData, underlyingValue), Selected(allData, underlyingValue);
      && WindowStart(i) <= i < WindowEnd(|allData|, i) <= |allData|
      && w == allData[WindowStart(i)..WindowEnd(|allData|, i)]
      && i - WindowStart(i) < |w|
      && w[i - WindowStart(i)] == allData[i]
  {
    AnchorIndex(allData, underlyingValue);
  }
}
