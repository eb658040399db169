/** `processData`: the raw payload in, the view model the templates render out. */
module Builder {
  import opened Wrappers
  import opened Seqs
  import opened Chain
  import opened Anchor
  import opened Metrics

  /** The object `processData` returns. `NoData` is `{ filteredData: [], totals: {} }`,
      the answer to a payload without `records.data`. */
  datatype ViewModel =
    | NoData
    | Full(filteredData: seq<Row>, totals: Totals, pcr: Option<real>,
           support: Option<real>, resistance: Option<real>, marketData: MarketData)

  /** `data`, `data.records` and `data.records.data` are all present. */
  predicate HasData(data: Option<Payload>)
  {
    data.Some? && data.value.records.Some? && data.value.records.value.data.Some?
  }

  function RecordsOf(data: Option<Payload>): Records
    requires HasData(data)
  {
    data.value.records.value
  }

  /** `allData`: the complete entries, first per strike. */
  function Deduped(data: Option<Payload>): seq<Quote>
    requires HasData(data)
  {
    AllData(RecordsOf(data).data.value)
  }

  /** The view model of a payload that has `records.data`. */
  function Build(records: Records): ViewModel
    requires records.data.Some?
  {
    var allData := AllData(records.data.value);
    var closestStrike := AnchorStrike(allData, records.underlyingValue);
    var w := Selected(allData, records.underlyingValue);
    var totals := TotalsOf(w);
    Full(Annotate(w, closestStrike), totals, Pcr(totals),
         Truthy(Support(w)), Truthy(Resistance(w)), Market(records))
  }

  /** What `processData` returns: no data exactly when the payload, its records
      or their data are missing. */
  function ViewModelOf(data: Option<Payload>): (vm: ViewModel)
    ensures vm.NoData? <==> !HasData(data)
  {
    if HasData(data) then Build(RecordsOf(data)) else NoData
  }

  /** Steps 2 and 3 of the source's support and resistance: both start as
      null and are set only when `find` returned a row. */
  method Levels(filteredData: seq<Quote>) returns (support: Option<real>, resistance: Option<real>)
    ensures support == Support(filteredData)
    ensures resistance == Resistance(filteredData)
  {
    var highestCallOIItem := HeaviestIndex(filteredData, Call);
    var highestPutOIItem := HeaviestIndex(filteredData, Put);
    support := None;
    resistance := None;
    if highestPutOIItem >= 0 {
      var item := filteredData[highestPutOIItem];
      support := Some(item.strikePrice as real - item.pe.lastPrice);
    }
    if highestCallOIItem >= 0 {
      var item := filteredData[highestCallOIItem];
      resistance := Some(item.strikePrice as real + item.ce.lastPrice);
    }
  }

  /** `processData` step by step as the source runs it. */
  method ProcessData(data: Option<Payload>) returns (vm: ViewModel)
    ensures vm == ViewModelOf(data)
  {
    if !HasData(data) {
      return NoData;
    }
    var records := data.value.records.value;
    var allData := DropRepeatedStrikes(CompleteQuotes(records.data.value));
    var underlyingValue := records.underlyingValue;
    var closestStrike := ClosestStrike(allData, underlyingValue);
    var closestStrikeIndex := IndexOf(StrikeList(allData), closestStrike);
    var filteredData := Window(allData, closestStrikeIndex);
    var totals := TotalsOf(filteredData);
    var pcr := Pcr(totals);
    var support, resistance := Levels(filteredData);
    vm := Full(Annotate(filteredData, closestStrike), totals, pcr,
               Truthy(support), Truthy(resistance), Market(records));
  }

  /** The parts of a view model built from a payload with data: the rows are the
      window of the deduplicated rows, flagged, and the totals, ratio and levels
      are computed from that window. */
  lemma BuildParts(data: Option<Payload>)
    requires HasData(data)
    ensures var allData, uv := Deduped(data), RecordsOf(data).underlyingValue;
      var w := Selected(allData, uv);
      var vm := ViewModelOf(data);
      && vm.filteredData == Annotate(w, AnchorStrike(allData, uv))
      && vm.totals == TotalsOf(w)
      && vm.pcr == Pcr(vm.totals)
      && vm.support == Truthy(Support(w))
      && vm.resistance == Truthy(Resistance(w))
      && vm.marketData == Market(RecordsOf(data))
  {
  }

  /** The rows of a view model built from a payload with data. */
  lemma RowsOf(data: Option<Payload>)
    requires HasData(data)
    ensures var allData, uv := Deduped(data), RecordsOf(data).underlyingValue;
      ViewModelOf(data).filteredData == Annotate(Selected(allData, uv), AnchorStrike(allData, uv))
  {
  }

  /** The support and resistance of a view model built from a payload with data. */
  lemma LevelsOf(data: Option<Payload>)
    requires HasData(data)
    ensures var w := Selected(Deduped(data), RecordsOf(data).underlyingValue);
      && ViewModelOf(data).support == Truthy(Support(w))
      && ViewModelOf(data).resistance == Truthy(Resistance(w))
  {
  }

  /** After deduplication no two rows share a strike. */
  lemma DedupedDistinct(data: Option<Payload>)
    requires HasData(data)
    ensures DistinctStrikes(Deduped(data))
  {
    FirstPerStrikeDistinct(CompleteQuotes(RecordsOf(data).data.value));
  }

  /** The flagged window of rows with distinct strikes: at most 17 rows with
      distinct strikes, empty only when there are no rows, and the slice of
      radius 8 around the strike nearest to the index price. */
  lemma {:induction false} WindowRows(allData: seq<Quote>, uv: real, rows: seq<Row>)
    requires DistinctStrikes(allData)
    requires rows == Annotate(Selected(allData, uv), AnchorStrike(allData, uv))
    ensures |rows| <= 17
    ensures rows == [] <==> allData == []
    ensures forall j, k :: 0 <= j < k < |rows| ==> rows[j].strikePrice != rows[k].strikePrice
    ensures allData != [] ==>
      var i := ClosestIndex(allData, uv);
      && WindowStart(i) <= i < WindowEnd(|allData|, i) <= |allData|
      && Unflagged(rows) == allData[WindowStart(i)..WindowEnd(|allData|, i)]
  {
    SelectedSize(allData, uv);
    SelectedDistinct(allData, uv);
    if allData != [] {
      SelectedAroundAnchor(allData, uv);
    }
    var w := Selected(allData, uv);
    assert Unflagged(rows) == w;
    forall j, k | 0 <= j < k < |rows| ensures rows[j].strikePrice != rows[k].strikePrice {
      assert Unflag(rows[j]) == w[j] && Unflag(rows[k]) == w[k];
    }
  }

  /** A non-empty flagged window of rows with distinct strikes comes from a
      non-empty list of rows, and marks the nearest row, at its place in the
      window, as current. */
  lemma CurrentRowShown(allData: seq<Quote>, uv: real, rows: seq<Row>)
    requires DistinctStrikes(allData)
    requires rows == Annotate(Selected(allData, uv), AnchorStrike(allData, uv)) && rows != []
    ensures allData != []
    ensures var i := ClosestIndex(allData, uv);
      && 0 <= i - WindowStart(i) < |rows|
      && rows[i - WindowStart(i)].isCurrentStrike
      && Unflag(rows[i - WindowStart(i)]) == allData[i]
  {
    SelectedSize(allData, uv);
    SelectedAroundAnchor(allData, uv);
    var c := ClosestIndex(allData, uv) - WindowStart(ClosestIndex(allData, uv));
    assert rows[c].isCurrentStrike;
  }

  /** Every row of the flagged window marked current holds the strike nearest to
      the index price. */
  lemma CurrentRowStrike(allData: seq<Quote>, uv: real, rows: seq<Row>)
    requires rows == Annotate(Selected(allData, uv), AnchorStrike(allData, uv)) && allData != []
    ensures forall k :: 0 <= k < |rows| && rows[k].isCurrentStrike ==>
      rows[k].strikePrice == allData[ClosestIndex(allData, uv)].strikePrice
  {
  }

  /** The table shows at most 17 rows with pairwise distinct strikes, is empty
      only when no entry has both sides, and is the slice of radius 8 around
      the strike nearest to the index price. */
  lemma WindowAroundNearestStrike(data: Option<Payload>, allData: seq<Quote>, rows: seq<Row>)
    requires HasData(data) && allData == Deduped(data) && rows == ViewModelOf(data).filteredData
    ensures |rows| <= 17
    ensures rows == [] <==> allData == []
    ensures forall j, k :: 0 <= j < k < |rows| ==> rows[j].strikePrice != rows[k].strikePrice
    ensures allData != [] ==>
      var i := ClosestIndex(allData, RecordsOf(data).underlyingValue);
      && WindowStart(i) <= i < WindowEnd(|allData|, i) <= |allData|
      && Unflagged(rows) == allData[WindowStart(i)..WindowEnd(|allData|, i)]
  {
    RowsOf(data);
    DedupedDistinct(data);
    WindowRows(allData, RecordsOf(data).underlyingValue, rows);
  }

  /** A non-empty table has exactly one row marked as the current strike, and
      that row's strike is nearest to the index price among all complete
      entries, the earliest one on a tie. */
  lemma OneCurrentStrike(data: Option<Payload>, rows: seq<Row>)
    requires HasData(data) && rows == ViewModelOf(data).filteredData && rows != []
    ensures Deduped(data) != []
    ensures exists k :: 0 <= k < |rows| && rows[k].isCurrentStrike
    ensures forall j, k :: 0 <= j < |rows| && 0 <= k < |rows| && rows[j].isCurrentStrike && rows[k].isCurrentStrike ==> j == k
    ensures forall k :: 0 <= k < |rows| && rows[k].isCurrentStrike ==>
      rows[k].strikePrice == Deduped(data)[ClosestIndex(Deduped(data), RecordsOf(data).underlyingValue)].strikePrice
  {
    var allData, uv := Deduped(data), RecordsOf(data).underlyingValue;
    RowsOf(data);
    DedupedDistinct(data);
    CurrentRowShown(allData, uv, rows);
    SelectedDistinct(allData, uv);
    AtMostOneCurrent(Selected(allData, uv), AnchorStrike(allData, uv));
    CurrentRowStrike(allData, uv, rows);
  }

  /** A flag is raised exactly on the rows whose figure no other shown row
      exceeds, so tied rows are all flagged. */
  lemma FlagsOnShownRows(data: Option<Payload>, rows: seq<Row>, k: int, leg: Leg, m: Measure)
    requires HasData(data) && rows == ViewModelOf(data).filteredData && 0 <= k < |rows|
    ensures Flag(rows[k], leg, m) <==>
      forall j :: 0 <= j < |rows| ==> Value(Unflag(rows[j]), leg, m) <= Value(Unflag(rows[k]), leg, m)
  {
    var allData, uv := Deduped(data), RecordsOf(data).underlyingValue;
    RowsOf(data);
    FlagsMarkMaxima(Selected(allData, uv), AnchorStrike(allData, uv), rows, k, leg, m);
  }

  /** On a non-empty table each of the four flags is raised on some row. */
  lemma EveryFlagShown(data: Option<Payload>, leg: Leg, m: Measure)
    requires HasData(data) && ViewModelOf(data).filteredData != []
    ensures var rows := ViewModelOf(data).filteredData;
      exists k :: 0 <= k < |rows| && Flag(rows[k], leg, m)
  {
    var allData, uv := Deduped(data), RecordsOf(data).underlyingValue;
    RowsOf(data);
    EveryFlagRaised(Selected(allData, uv), AnchorStrike(allData, uv), leg, m);
  }

  /** The totals are the sums over the shown rows, and the ratio is computed
      from those totals. */
  lemma TotalsOfShownRows(data: Option<Payload>)
    requires HasData(data)
    ensures var vm := ViewModelOf(data);
      && vm.totals == TotalsOf(Unflagged(vm.filteredData))
      && vm.pcr == Pcr(vm.totals)
  {
    BuildParts(data);
  }

  /** Support is the strike minus the put price of the first shown row with
      the largest put open interest; it is "N/A" when the table is empty or when
      it comes out as 0. */
  lemma SupportOfShownRows(data: Option<Payload>, rows: seq<Row>, k: int)
    requires HasData(data) && rows == ViewModelOf(data).filteredData
    ensures rows == [] ==> ViewModelOf(data).support.None?
    ensures FirstHeaviest(Unflagged(rows), Put, k) ==>
      var s := rows[k].strikePrice as real - rows[k].pe.side.lastPrice;
      ViewModelOf(data).support == if s != 0.0 then Some(s) else None
  {
    var allData, uv := Deduped(data), RecordsOf(data).underlyingValue;
    RowsOf(data);
    LevelsOf(data);
    ShownSupportOfRows(Selected(allData, uv), AnchorStrike(allData, uv), rows, ViewModelOf(data).support, k);
  }

  /** Resistance is the strike plus the call price of the first shown row with
      the largest call open interest; it is "N/A" when the table is empty or
      when it comes out as 0. */
  lemma ResistanceOfShownRows(data: Option<Payload>, rows: seq<Row>, k: int)
    requires HasData(data) && rows == ViewModelOf(data).filteredData
    ensures rows == [] ==> ViewModelOf(data).resistance.None?
    ensures FirstHeaviest(Unflagged(rows), Call, k) ==>
      var r := rows[k].strikePrice as real + rows[k].ce.side.lastPrice;
      ViewModelOf(data).resistance == if r != 0.0 then Some(r) else None
  {
    var allData, uv := Deduped(data), RecordsOf(data).underlyingValue;
    RowsOf(data);
    LevelsOf(data);
    ShownResistanceOfRows(Selected(allData, uv), AnchorStrike(allData, uv), rows, ViewModelOf(data).resistance, k);
  }

  /** A payload whose entries all lack a call or a put side gives an empty
      table and all-zero totals. */
  lemma NoCompleteEntryEmptyTable(data: Option<Payload>)
    requires HasData(data) && forall e :: e in RecordsOf(data).data.value ==> !Complete(e)
    ensures ViewModelOf(data).filteredData == []
    ensures ViewModelOf(data).totals == Totals(0, 0, 0, 0)
  {
    NoCompleteEntry(RecordsOf(data).data.value);
    assert Deduped(data) == [];
    BuildParts(data);
  }

  /** The view model depends on the entries only through `allData`. */
  lemma SameRowsSameView(r1: Records, r2: Records)
    requires r1.data.Some? && r2.data.Some?
    requires AllData(r1.data.value) == AllData(r2.data.value)
    requires r1.underlyingValue == r2.underlyingValue && r1.strikePrices == r2.strikePrices
    ensures ViewModelOf(Some(Payload(Some(r1)))) == ViewModelOf(Some(Payload(Some(r2))))
  {
    assert Market(r1) == Market(r2);
    assert Build(r1) == Build(r2);
  }

  /** A complete entry repeating the strike of an earlier complete entry changes
      nothing in the result, rows and totals included. */
  lemma DuplicateStrikeIgnored(a: seq<Entry>, e: Entry, b: seq<Entry>, underlyingValue: real, strikePrices: Option<seq<int>>)
    requires exists k :: 0 <= k < |a| && Complete(a[k]) && a[k].strikePrice == e.strikePrice
    ensures ViewModelOf(Some(Payload(Some(Records(Some(a + [e] + b), underlyingValue, strikePrices)))))
         == ViewModelOf(Some(Payload(Some(Records(Some(a + b), underlyingValue, strikePrices)))))
  {
    LaterDuplicateIgnored(a, e, b);
    SameRowsSameView(Records(Some(a + [e] + b), underlyingValue, strikePrices),
                     Records(Some(a + b), underlyingValue, strikePrices));
  }

  /** An entry without a call or without a put side changes nothing in the result. */
  lemma IncompleteEntryChangesNothing(a: seq<Entry>, e: Entry, b: seq<Entry>, underlyingValue: real, strikePrices: Option<seq<int>>)
    requires !Complete(e)
    ensures ViewModelOf(Some(Payload(Some(Records(Some(a + [e] + b), underlyingValue, strikePrices)))))
         == ViewModelOf(Some(Payload(Some(Records(Some(a + b), underlyingValue, strikePrices)))))
  {
    IncompleteEntryIgnored(a, e, b);
    SameRowsSameView(Records(Some(a + [e] + b), underlyingValue, strikePrices),
                     Records(Some(a + b), underlyingValue, strikePrices));
  }
}

/** A worked payload: three strikes around an index price of 109. */
module Example {
  import opened Wrappers
  import opened Seqs
  import opened Chain
  import opened Anchor
  import opened Metrics
  import opened Builder

  const Low := Quote(100, Side(100, 5, 11.0), Side(200, 7, 0.5))
  const Mid := Quote(110, Side(300, -4, 3.0), Side(500, 9, 2.5))
  const High := Quote(120, Side(800, 6, 1.2), Side(100, -2, 12.0))

  function AsEntry(q: Quote): Entry
  {
    Entry(q.strikePrice, Some(q.ce), Some(q.pe))
  }

  function ThreeStrikes(): Option<Payload>
  {
    Some(Payload(Some(Records(Some([AsEntry(Low), AsEntry(Mid), AsEntry(High)]), 109.0, None))))
  }

  lemma SumOfThree(a: int, b: int, c: int)
    ensures Sum([a, b, c]) == a + b + c
  {
    assert [a, b, c][1..] == [b, c] && [b, c][1..] == [c] && [c][1..] == [];
    assert Sum([c]) == c;
    assert Sum([b, c]) == b + c;
  }

  /** All three entries are complete and have distinct strikes. */
  lemma ThreeStrikesDeduped()
    ensures AllData([AsEntry(Low), AsEntry(Mid), AsEntry(High)]) == [Low, Mid, High]
  {
    var data := [AsEntry(Low), AsEntry(Mid), AsEntry(High)];
    var all := [Low, Mid, High];
    assert CompleteQuotes(data) == all by {
      assert data[1..] == [AsEntry(Mid), AsEntry(High)];
      assert data[1..][1..] == [AsEntry(High)];
      assert data[1..][1..][1..] == [];
      assert CompleteQuotes([AsEntry(High)]) == [High];
      assert CompleteQuotes(data[1..]) == [Mid, High];
    }
    assert all[..2][..1] == [Low] && [Low][..0] == [];
    assert FirstPerStrike([Low]) == [Low];
    assert FirstPerStrike(all[..2]) == [Low, Mid];
  }

  /** Strike 110 is nearest to 109, and the window of radius 8 around it holds all three rows. */
  lemma ThreeStrikesWindow()
    ensures AnchorStrike([Low, Mid, High], 109.0) == 110
    ensures Selected([Low, Mid, High], 109.0) == [Low, Mid, High]
  {
    var all := [Low, Mid, High];
    assert all[..2][..1] == [Low];
    assert ClosestIndex(all, 109.0) == 1;
    assert IndexOf(StrikeList(all), 110) == 1;
  }

  /** The totals of the three rows, and the rows support and resistance come from. */
  lemma ThreeStrikesMetrics()
    ensures TotalsOf([Low, Mid, High]) == Totals(1200, 7, 800, 14)
    ensures Support([Low, Mid, High]) == Some(107.5)
    ensures Resistance([Low, Mid, High]) == Some(121.2)
    ensures Pcr(TotalsOf([Low, Mid, High])) == Some(800.0 / 1200.0)
  {
    var w := [Low, Mid, High];
    assert Column(w, Call, OpenInterest) == [100, 300, 800];
    assert Column(w, Call, ChangeInOpenInterest) == [5, -4, 6];
    assert Column(w, Put, OpenInterest) == [200, 500, 100];
    assert Column(w, Put, ChangeInOpenInterest) == [7, 9, -2];
    SumOfThree(100, 300, 800);
    SumOfThree(5, -4, 6);
    SumOfThree(200, 500, 100);
    SumOfThree(7, 9, -2);
    assert FirstHeaviest(w, Put, 1);
    assert FirstHeaviest(w, Call, 2);
    LevelsFromHeaviestRows(w, 1);
    LevelsFromHeaviestRows(w, 2);
  }

  /** All three rows are shown, and the middle one (strike 110, nearest to
      109) is marked current. */
  lemma ThreeStrikesRows(data: Option<Payload>)
    requires data == ThreeStrikes()
    ensures var rows := ViewModelOf(data).filteredData;
      |rows| == 3 && Unflagged(rows) == [Low, Mid, High] && rows[1].isCurrentStrike
  {
    ThreeStrikesDeduped();
    ThreeStrikesWindow();
    RowsOf(data);
    assert Deduped(data) == [Low, Mid, High];
    assert RecordsOf(data).underlyingValue == 109.0;
  }

  /** Support is 110 - 2.5 and resistance 120 + 1.2. */
  lemma ThreeStrikesLevels(data: Option<Payload>)
    requires data == ThreeStrikes()
    ensures ViewModelOf(data).support == Some(107.5)
    ensures ViewModelOf(data).resistance == Some(121.2)
  {
    ThreeStrikesDeduped();
    ThreeStrikesWindow();
    ThreeStrikesMetrics();
    LevelsOf(data);
    assert Deduped(data) == [Low, Mid, High];
    assert RecordsOf(data).underlyingValue == 109.0;
  }

  /** The totals row sums the three rows. */
  lemma ThreeStrikesTotals(data: Option<Payload>)
    requires data == ThreeStrikes()
    ensures ViewModelOf(data).totals == Totals(1200, 7, 800, 14)
  {
    ThreeStrikesDeduped();
    ThreeStrikesWindow();
    ThreeStrikesMetrics();
    BuildParts(data);
    assert Deduped(data) == [Low, Mid, High];
    assert RecordsOf(data).underlyingValue == 109.0;
  }

  /** The returned put-call ratio is 800 / 1200. */
  lemma ThreeStrikesRatio(data: Option<Payload>)
    requires data == ThreeStrikes()
    ensures ViewModelOf(data).pcr == Some(800.0 / 1200.0)
  {
    ThreeStrikesTotals(data);
    TotalsOfShownRows(data);
  }
}
