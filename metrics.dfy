/** What `processData` derives from the window: the per-row highlight flags,
    the totals, the put-call ratio, support and resistance, and the market
    snapshot. */
module Metrics {
  import opened Wrappers
  import opened Seqs
  import opened Chain

  /** The call (CE) or the put (PE) side of a row. */
  datatype Leg = Call | Put

  /** The two open-interest figures of a side. */
  datatype Measure = OpenInterest | ChangeInOpenInterest

  function SideOf(q: Quote, leg: Leg): Side
  {
    match leg
    case Call => q.ce
    case Put => q.pe
  }

  function Value(q: Quote, leg: Leg, m: Measure): int
  {
    match m
    case OpenInterest => SideOf(q, leg).openInterest
    case ChangeInOpenInterest => SideOf(q, leg).changeinOpenInterest
  }

  /** One figure of every row, in row order (`filteredData.map(d => d.CE.openInterest)` and its three siblings). */
  function Column(w: seq<Quote>, leg: Leg, m: Measure): (xs: seq<int>)
    ensures |xs| == |w|
    ensures forall k :: 0 <= k < |w| ==> xs[k] == Value(w[k], leg, m)
  {
    seq(|w|, k requires 0 <= k < |w| => Value(w[k], leg, m))
  }

  /** `highestCallOI`, `highestCallChangeOI`, `highestPutOI`, `highestPutChangeOI`.
      Only defined on a non-empty window: the source's `-Infinity` for an empty
      window is never compared with a row. */
  function Highest(w: seq<Quote>, leg: Leg, m: Measure): int
    requires w != []
  {
    Max(Column(w, leg, m))
  }

  /** A side of an output row with its two highlight flags. */
  datatype FlaggedSide = FlaggedSide(side: Side, isHighestOI: bool, isHighestChangeOI: bool)

  /** An output row (an element of `enhancedData`). */
  datatype Row = Row(strikePrice: int, ce: FlaggedSide, pe: FlaggedSide, isCurrentStrike: bool)

  /** A row with its flags dropped. */
  function Unflag(row: Row): Quote
  {
    Quote(row.strikePrice, row.ce.side, row.pe.side)
  }

  /** Every row of a table with its flags dropped. */
  function Unflagged(rows: seq<Row>): (w: seq<Quote>)
    ensures |w| == |rows|
    ensures forall k :: 0 <= k < |rows| ==> w[k] == Unflag(rows[k])
  {
    seq(|rows|, k requires 0 <= k < |rows| => Unflag(rows[k]))
  }

  function FlaggedSideOf(row: Row, leg: Leg): FlaggedSide
  {
    match leg
    case Call => row.ce
    case Put => row.pe
  }

  /** The flag a row carries for one figure. */
  function Flag(row: Row, leg: Leg, m: Measure): bool
  {
    match m
    case OpenInterest => FlaggedSideOf(row, leg).isHighestOI
    case ChangeInOpenInterest => FlaggedSideOf(row, leg).isHighestChangeOI
  }

  function FlagSide(w: seq<Quote>, k: nat, leg: Leg): FlaggedSide
    requires k < |w|
  {
    var s := SideOf(w[k], leg);
    FlaggedSide(s, s.openInterest == Highest(w, leg, OpenInterest),
                s.changeinOpenInterest == Highest(w, leg, ChangeInOpenInterest))
  }

  /** The `enhancedData` map: every row keeps its strike and its two sides, is
      marked current iff its strike is `closestStrike`, and each figure is
      flagged iff it equals that figure's maximum over the window. */
  function Annotate(w: seq<Quote>, closestStrike: int): (rows: seq<Row>)
    ensures Unflagged(rows) == w
    ensures forall k :: 0 <= k < |w| ==> (rows[k].isCurrentStrike <==> w[k].strikePrice == closestStrike)
  {
    seq(|w|, k requires 0 <= k < |w| =>
      Row(w[k].strikePrice, FlagSide(w, k, Call), FlagSide(w, k, Put), w[k].strikePrice == closestStrike))
  }

  /** The flag of a row for one figure is the test "equals the window maximum". */
  lemma FlagIsMax(w: seq<Quote>, closestStrike: int, k: nat, leg: Leg, m: Measure)
    requires k < |w|
    ensures Flag(Annotate(w, closestStrike)[k], leg, m) == (Value(w[k], leg, m) == Highest(w, leg, m))
  {
    var row := Annotate(w, closestStrike)[k];
    assert row == Row(w[k].strikePrice, FlagSide(w, k, Call), FlagSide(w, k, Put), w[k].strikePrice == closestStrike);
  }

  /** An element equals the maximum iff no element is larger. */
  lemma IsMaxIff(xs: seq<int>, k: nat)
    requires k < |xs|
    ensures xs[k] == Max(xs) <==> forall j :: 0 <= j < |xs| ==> xs[j] <= xs[k]
  {
    if forall j :: 0 <= j < |xs| ==> xs[j] <= xs[k] {
      var i :| 0 <= i < |xs| && xs[i] == Max(xs);
      assert xs[i] <= xs[k];
    }
  }

  /** A figure is flagged exactly on the rows where no other row of the window
      has a larger one; so ties are all flagged. */
  lemma FlagsMarkMaxima(w: seq<Quote>, closestStrike: int, rows: seq<Row>, k: int, leg: Leg, m: Measure)
    requires rows == Annotate(w, closestStrike) && 0 <= k < |rows|
    ensures Flag(rows[k], leg, m) <==>
      forall j :: 0 <= j < |rows| ==> Value(Unflag(rows[j]), leg, m) <= Value(Unflag(rows[k]), leg, m)
  {
    assert forall j :: 0 <= j < |rows| ==> Unflag(rows[j]) == w[j];
    FlagIsMax(w, closestStrike, k, leg, m);
    var xs := Column(w, leg, m);
    IsMaxIff(xs, k);
    assert (forall j :: 0 <= j < |xs| ==> xs[j] <= xs[k])
       <==> (forall j :: 0 <= j < |w| ==> Value(w[j], leg, m) <= Value(w[k], leg, m));
  }

  /** On a non-empty window every one of the four flags is raised on some row. */
  lemma {:induction false} EveryFlagRaised(w: seq<Quote>, closestStrike: int, leg: Leg, m: Measure)
    requires w != []
    ensures exists k :: 0 <= k < |w| && Flag(Annotate(w, closestStrike)[k], leg, m)
  {
    var xs := Column(w, leg, m);
    var k :| 0 <= k < |xs| && xs[k] == Max(xs);
    FlagIsMax(w, closestStrike, k, leg, m);
  }

  /** With distinct strikes at most one row is marked as the current strike. */
  lemma AtMostOneCurrent(w: seq<Quote>, closestStrike: int)
    requires DistinctStrikes(w)
    ensures var rows := Annotate(w, closestStrike);
      forall j, k :: 0 <= j < |rows| && 0 <= k < |rows| && rows[j].isCurrentStrike && rows[k].isCurrentStrike ==> j == k
  {
    var rows := Annotate(w, closestStrike);
    forall j, k | 0 <= j < |rows| && 0 <= k < |rows| && rows[j].isCurrentStrike && rows[k].isCurrentStrike
      ensures j == k
    {
      assert w[j].strikePrice == closestStrike == w[k].strikePrice;
    }
  }

  /** The `totals` object. */
  datatype Totals = Totals(callOI: int, callChangeOI: int, putOI: int, putChangeOI: int)

  /** The four sums over the window rows. */
  function TotalsOf(w: seq<Quote>): (t: Totals)
    ensures w == [] ==> t == Totals(0, 0, 0, 0)
  {
    Totals(Sum(Column(w, Call, OpenInterest)), Sum(Column(w, Call, ChangeInOpenInterest)),
           Sum(Column(w, Put, OpenInterest)), Sum(Column(w, Put, ChangeInOpenInterest)))
  }

  /** The totals of a single row are that row's four figures; with the
      empty-window zeros and `TotalsAppend` this fixes every total as the sum of
      its figure over the window's rows. */
  lemma TotalsOne(q: Quote)
    ensures TotalsOf([q]) == Totals(q.ce.openInterest, q.ce.changeinOpenInterest,
                                    q.pe.openInterest, q.pe.changeinOpenInterest)
  {
    forall x: int ensures Sum([x]) == x {
      assert [x][1..] == [];
    }
    assert Column([q], Call, OpenInterest) == [q.ce.openInterest];
    assert Column([q], Call, ChangeInOpenInterest) == [q.ce.changeinOpenInterest];
    assert Column([q], Put, OpenInterest) == [q.pe.openInterest];
    assert Column([q], Put, ChangeInOpenInterest) == [q.pe.changeinOpenInterest];
  }

  /** The totals of two blocks of rows shown together are the field-wise sums
      of the totals of each block. */
  lemma TotalsAppend(u: seq<Quote>, v: seq<Quote>)
    ensures var t, tu, tv := TotalsOf(u + v), TotalsOf(u), TotalsOf(v);
      && t.callOI == tu.callOI + tv.callOI
      && t.callChangeOI == tu.callChangeOI + tv.callChangeOI
      && t.putOI == tu.putOI + tv.putOI
      && t.putChangeOI == tu.putChangeOI + tv.putChangeOI
  {
    forall leg, m ensures Sum(Column(u + v, leg, m)) == Sum(Column(u, leg, m)) + Sum(Column(v, leg, m)) {
      assert Column(u + v, leg, m) == Column(u, leg, m) + Column(v, leg, m);
      SumAppend(Column(u, leg, m), Column(v, leg, m));
    }
  }

  /** With no negative open interest on any row, neither open-interest total is
      negative. */
  lemma TotalsNonNegative(w: seq<Quote>)
    requires forall k :: 0 <= k < |w| ==> 0 <= w[k].ce.openInterest && 0 <= w[k].pe.openInterest
    ensures 0 <= TotalsOf(w).callOI && 0 <= TotalsOf(w).putOI
  {
    SumNonNegative(Column(w, Call, OpenInterest));
    SumNonNegative(Column(w, Put, OpenInterest));
  }

  /** The put-call ratio, or None ("N/A") when the call total is not positive. */
  function Pcr(t: Totals): (r: Option<real>)
    ensures r.None? <==> t.callOI <= 0
  {
    if t.callOI > 0 then Some(t.putOI as real / t.callOI as real) else None
  }

  /** An available ratio times the call total gives back the put total. */
  lemma PcrIsRatio(t: Totals)
    ensures Pcr(t).Some? ==> Pcr(t).value * (t.callOI as real) == t.putOI as real
  {
  }

  /** With no negative open interest on any row, an available ratio is not negative. */
  lemma PcrNonNegative(w: seq<Quote>)
    requires forall k :: 0 <= k < |w| ==> 0 <= w[k].ce.openInterest && 0 <= w[k].pe.openInterest
    ensures Pcr(TotalsOf(w)).Some? ==> 0.0 <= Pcr(TotalsOf(w)).value
  {
    TotalsNonNegative(w);
  }

  /** Row `k` is the first row of the window with the largest open interest on `leg`. */
  predicate FirstHeaviest(w: seq<Quote>, leg: Leg, k: int)
  {
    && 0 <= k < |w|
    && (forall j :: 0 <= j < |w| ==> Value(w[j], leg, OpenInterest) <= Value(w[k], leg, OpenInterest))
    && (forall j :: 0 <= j < k ==> Value(w[j], leg, OpenInterest) < Value(w[k], leg, OpenInterest))
  }

  /** `filteredData.find(item => item.PE.openInterest === highestPutOI)` (and the
      call side likewise), as a position, -1 for `undefined`. */
  function HeaviestIndex(w: seq<Quote>, leg: Leg): (i: int)
    ensures -1 <= i < |w|
    ensures i == -1 <==> w == []
    ensures 0 <= i ==> FirstHeaviest(w, leg, i)
  {
    if w == [] then -1 else IndexOf(Column(w, leg, OpenInterest), Highest(w, leg, OpenInterest))
  }

  /** At most one row is the first row with the largest open interest. */
  lemma FirstHeaviestUnique(w: seq<Quote>, leg: Leg, k1: int, k2: int)
    requires FirstHeaviest(w, leg, k1) && FirstHeaviest(w, leg, k2)
    ensures k1 == k2
  {
    assert Value(w[k1], leg, OpenInterest) == Value(w[k2], leg, OpenInterest);
  }

  /** The `support` variable before formatting: null on an empty window, else
      the strike minus the put's last price of the row `find` returns. */
  function Support(w: seq<Quote>): (r: Option<real>)
    ensures r.None? <==> w == []
  {
    var i := HeaviestIndex(w, Put);
    if i < 0 then None else Some(w[i].strikePrice as real - w[i].pe.lastPrice)
  }

  /** The `resistance` variable before formatting: null on an empty window,
      else the strike plus the call's last price of the row `find` returns. */
  function Resistance(w: seq<Quote>): (r: Option<real>)
    ensures r.None? <==> w == []
  {
    var i := HeaviestIndex(w, Call);
    if i < 0 then None else Some(w[i].strikePrice as real + w[i].ce.lastPrice)
  }

  /** `level ? level.toFixed(2) : "N/A"` without the formatting: null and 0 are
      falsy and give "N/A" (None). */
  function Truthy(level: Option<real>): Option<real>
  {
    if level.Some? && level.value != 0.0 then level else None
  }

  /** Support comes from the first row with the largest put open interest,
      resistance from the first row with the largest call open interest. */
  lemma LevelsFromHeaviestRows(w: seq<Quote>, k: int)
    ensures FirstHeaviest(w, Put, k) ==> Support(w) == Some(w[k].strikePrice as real - w[k].pe.lastPrice)
    ensures FirstHeaviest(w, Call, k) ==> Resistance(w) == Some(w[k].strikePrice as real + w[k].ce.lastPrice)
  {
    if FirstHeaviest(w, Put, k) {
      FirstHeaviestUnique(w, Put, k, HeaviestIndex(w, Put));
    }
    if FirstHeaviest(w, Call, k) {
      FirstHeaviestUnique(w, Call, k, HeaviestIndex(w, Call));
    }
  }

  /** The support shown: "N/A" on an empty window, else the strike minus the
      put price of the first row with the largest put open interest, or "N/A"
      when that comes out as 0. */
  lemma ShownSupport(w: seq<Quote>, k: int)
    ensures w == [] ==> Truthy(Support(w)).None?
    ensures FirstHeaviest(w, Put, k) ==>
      var s := w[k].strikePrice as real - w[k].pe.lastPrice;
      Truthy(Support(w)) == if s != 0.0 then Some(s) else None
  {
    LevelsFromHeaviestRows(w, k);
  }

  /** The resistance shown: "N/A" on an empty window, else the strike plus the
      call price of the first row with the largest call open interest, or "N/A"
      when that comes out as 0. */
  lemma ShownResistance(w: seq<Quote>, k: int)
    ensures w == [] ==> Truthy(Resistance(w)).None?
    ensures FirstHeaviest(w, Call, k) ==>
      var r := w[k].strikePrice as real + w[k].ce.lastPrice;
      Truthy(Resistance(w)) == if r != 0.0 then Some(r) else None
  {
    LevelsFromHeaviestRows(w, k);
  }

  /** `ShownSupport` read off the flagged rows of the window. */
  lemma ShownSupportOfRows(w: seq<Quote>, closestStrike: int, rows: seq<Row>, support: Option<real>, k: int)
    requires rows == Annotate(w, closestStrike) && support == Truthy(Support(w))
    ensures rows == [] ==> support.None?
    ensures FirstHeaviest(Unflagged(rows), Put, k) ==>
      var s := rows[k].strikePrice as real - rows[k].pe.side.lastPrice;
      support == if s != 0.0 then Some(s) else None
  {
    ShownSupport(w, k);
  }

  /** `ShownResistance` read off the flagged rows of the window. */
  lemma ShownResistanceOfRows(w: seq<Quote>, closestStrike: int, rows: seq<Row>, resistance: Option<real>, k: int)
    requires rows == Annotate(w, closestStrike) && resistance == Truthy(Resistance(w))
    ensures rows == [] ==> resistance.None?
    ensures FirstHeaviest(Unflagged(rows), Call, k) ==>
      var r := rows[k].strikePrice as real + rows[k].ce.side.lastPrice;
      resistance == if r != 0.0 then Some(r) else None
  {
    ShownResistance(w, k);
  }

  /** The `marketData` object. */
  datatype MarketData = MarketData(currentPrice: real, open: real, high: real, prevClose: real)

  /** `p` is the fallback or a non-zero element of the list. */
  predicate ListedOr(p: real, strikePrices: Option<seq<int>>, fallback: real)
  {
    p == fallback || (strikePrices.Some? && exists k :: 0 <= k < |strikePrices.value| && strikePrices.value[k] != 0 && p == strikePrices.value[k] as real)
  }

  /** `strikePrices?.[i] || fallback`: the element at `i` when the list is there,
      `i` is a position of it and the element is not 0; the fallback otherwise. */
  function PositionOr(strikePrices: Option<seq<int>>, i: int, fallback: real): (p: real)
    ensures ListedOr(p, strikePrices, fallback)
  {
    if strikePrices.Some? && 0 <= i < |strikePrices.value| && strikePrices.value[i] != 0
    then strikePrices.value[i] as real
    else fallback
  }

  /** The snapshot: the index price, and three prices read by position from the
      strike list (first, last, middle by floor division). Each of the three is
      either the index price or a non-zero element of the list. */
  function Market(rec: Records): (md: MarketData)
    ensures md.currentPrice == rec.underlyingValue
    ensures ListedOr(md.open, rec.strikePrices, rec.underlyingValue)
    ensures ListedOr(md.high, rec.strikePrices, rec.underlyingValue)
    ensures ListedOr(md.prevClose, rec.strikePrices, rec.underlyingValue)
  {
    var n := if rec.strikePrices.Some? then |rec.strikePrices.value| else 0;
    var uv := rec.underlyingValue;
    MarketData(uv, PositionOr(rec.strikePrices, 0, uv), PositionOr(rec.strikePrices, n - 1, uv),
               PositionOr(rec.strikePrices, n / 2, uv))
  }

  /** Which position each snapshot price comes from, and that all three fall back
      to the index price when the list is missing or empty. */
  lemma MarketPositions(rec: Records)
    ensures var md, uv := Market(rec), rec.underlyingValue;
      (rec.strikePrices.None? || rec.strikePrices.value == []) ==>
        md.open == uv && md.high == uv && md.prevClose == uv
    ensures var md, uv := Market(rec), rec.underlyingValue;
      rec.strikePrices.Some? && rec.strikePrices.value != [] ==>
        var xs := rec.strikePrices.value;
        && md.open == (if xs[0] != 0 then xs[0] as real else uv)
        && md.high == (if xs[|xs| - 1] != 0 then xs[|xs| - 1] as real else uv)
        && md.prevClose == (if xs[|xs| / 2] != 0 then xs[|xs| / 2] as real else uv)
  {
  }
}
