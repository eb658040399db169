# Option-chain view model of nf-node2

The server fetches the option chain of the NIFTY index from the NSE
exchange. `processData` (app.js:51-169) turns the raw payload into the view
model that the page template renders. This project models that function in
Dafny and proves what it computes.

`processData` works in these steps:

1. **Validate.** A payload without `records` or `records.data` gives an empty
   table and empty totals.
2. **Filter and dedupe.** Entries that lack a call (CE) or a put (PE) side
   are dropped. Of the rest, the first entry of every strike price is kept,
   in input order.
3. **Find the anchor.** A scan finds the strike nearest to the index price
   (`underlyingValue`). A later strike must be strictly nearer to replace
   the current best, so the earliest of equally near strikes wins.
4. **Cut the window.** At most 8 rows on either side of the anchor are kept.
5. **Flag the rows.** Each of the four open-interest figures (call and put
   open interest, call and put change in open interest) is flagged on every
   row where it equals its maximum over the window. The anchor's row is
   marked current.
6. **Aggregate.** The window gets four totals and the put-call ratio (PCR).
7. **Derive levels.** Support and resistance come from the rows with the
   largest put and call open interest.
8. **Market snapshot.** The market data is read from `records.strikePrices`.
   As written, `open`, `high` and `prevClose` are the first, last and middle
   elements of that list. Each falls back to the index price.

Modules, in dependency order:

- `Wrappers` — `Option`.
- `Seqs` — the sequence primitives the source uses:
  - `Math.max(...xs)` as `Max`;
  - `findIndex` with an equality test as `IndexOf`, which gives -1 when
    nothing matches;
  - `reduce` with `+` from 0 as `Sum`.
- `Chain` — the payload types and step 2:
  - `FirstPerStrike` specifies the dedupe;
  - the method `DropRepeatedStrikes` runs it the way the source does, with a
    set of seen strikes.
- `Anchor` — steps 3 and 4:
  - `ClosestIndex` and `AnchorStrike` specify the scan;
  - the method `ClosestStrike` is the loop;
  - `Window` is the clamped slice.
- `Metrics` — steps 5 to 8, on the window.
- `Builder`:
  - `ViewModelOf` is the whole function, and `ProcessData` is the same
    steps run in order;
  - the lemmas state what the template receives.
- `Example` — a three-strike payload worked end to end.

Modelling choices:

- Prices (`underlyingValue`, `lastPrice`) and the derived PCR, support and
  resistance are exact `real` numbers.
- Strike prices and open-interest figures are unbounded integers.
- `"N/A"` and `null` are `None`.
- The result of a payload without data is `NoData`. It stands for
  `{ filteredData: [], totals: {} }`.
- The scan's `minDifference = Number.MAX_VALUE` is `None`, meaning "no
  candidate yet". Since all distances are finite, the first row always
  becomes the first candidate, just as in the source.

## Model

| member | source | states |
|---|---|---|
| Builder.ViewModelOf | app.js:51-57 | the result is the empty view model exactly when `data`, `data.records` or `data.records.data` is missing |
| Builder.ProcessData | app.js:51-169 | running the steps in order yields `ViewModelOf(data)`, for every payload |
| Chain.DropRepeatedStrikes | app.js:59-68 | the one-pass filter with a set of seen strikes returns exactly `FirstPerStrike` of its input |
| Chain.CompleteQuotesMembers | app.js:60-61 | the first filter keeps every entry with both sides, and keeps nothing else |
| Chain.CompleteQuotesAppend | app.js:60-61 | the first filter preserves input order: it maps a concatenation to the concatenation of the results |
| Chain.NoCompleteEntry | app.js:60-61 | when no entry has both sides, the first filter keeps nothing |
| Chain.FirstPerStrikeKeepsStrikes | app.js:62-68 | the dedupe loses no strike and adds none: the output's set of strikes equals the input's |
| Chain.FirstPerStrikeDistinct | app.js:62-68 | after the dedupe, no two rows share a strike price |
| Chain.FirstPerStrikeFirst | app.js:62-68 | each kept row is the first input row with its strike, and kept rows appear in the order of those first occurrences |
| Chain.FirstPerStrikeSkipsRepeat | app.js:62-68 | removing a row whose strike already occurred earlier leaves the dedupe's output unchanged |
| Chain.IncompleteEntryIgnored | app.js:60-68 | an entry lacking a call or a put side has no effect on `allData` |
| Chain.LaterDuplicateIgnored | app.js:60-68 | a complete entry whose strike already appeared on an earlier complete entry has no effect on `allData` |
| Anchor.ClosestIndex | app.js:71-79 | the chosen row is no farther from the index price than any row, and strictly nearer than every earlier row |
| Anchor.ClosestStrike | app.js:71-79 | the `forEach` scan with a strict `<` returns the strike of `ClosestIndex`, or 0 on no rows |
| Anchor.AnchorIndex | app.js:81-83 | on distinct strikes, `findIndex` of the anchor strike is the anchor's own position, or -1 on no rows |
| Anchor.Window | app.js:85-88 | the slice holds at most 17 rows, all within 8 positions of the anchor index, and holds every row within that distance |
| Anchor.SelectedSize | app.js:81-88 | the window has at most 17 rows, and is empty exactly when there are no rows |
| Anchor.SelectedDistinct | app.js:81-88 | the window's strikes are distinct when all strikes are |
| Anchor.SelectedAroundAnchor | app.js:81-88 | on a non-empty list, the window is the slice `[max(0,i-8), min(n,i+9))` around the anchor index `i` and contains the anchor row |
| Seqs.IndexOf | app.js:81-83 | the result is -1 exactly when the value is absent; otherwise it is the first position holding the value |
| Seqs.Max | app.js:90-97 | the maximum is an element of the list and no element exceeds it |
| Metrics.Annotate | app.js:99-112 | each output row keeps its quote, and is marked current iff its strike is the anchor strike |
| Metrics.FlagIsMax | app.js:99-112 | a row's flag for a figure is set iff the figure equals the window maximum |
| Metrics.FlagsMarkMaxima | app.js:90-112 | a row's flag is set iff no row in the window has a larger value of that figure, so tied rows are all flagged |
| Metrics.EveryFlagRaised | app.js:90-112 | on a non-empty window, each of the four flags is set on at least one row |
| Metrics.AtMostOneCurrent | app.js:101 | on distinct strikes, at most one row is marked current |
| Metrics.TotalsOf | app.js:114-125 | the totals of an empty window are all 0 |
| Metrics.TotalsOne | app.js:114-125 | the totals of one row are that row's call and put open interest and change in open interest; with the empty case and `TotalsAppend` this fixes every total as the sum of its figure over the rows |
| Metrics.TotalsAppend | app.js:114-125 | each total over two blocks of rows is the sum of that total over each block |
| Seqs.SumAppend | app.js:114-125 | a `reduce` sum over a concatenation is the sum of the parts |
| Metrics.TotalsNonNegative | app.js:114-125 | when no row has negative open interest, the two open-interest totals are not negative |
| Seqs.SumNonNegative | app.js:114-125 | a sum of non-negative numbers is not negative |
| Metrics.Pcr | app.js:128 | the ratio is "N/A" exactly when the call open-interest total is not positive |
| Metrics.PcrIsRatio | app.js:128 | an available ratio times the call total equals the put total |
| Metrics.PcrNonNegative | app.js:114-128 | when no row has negative open interest, an available ratio is not negative |
| Metrics.HeaviestIndex | app.js:132-137 | `find` returns nothing exactly on an empty window; otherwise it returns the first row with the largest open interest on that side |
| Metrics.FirstHeaviestUnique | app.js:132-137 | only one row is the first with the largest open interest on a side |
| Metrics.Support | app.js:140-146 | support is missing exactly when the window is empty |
| Metrics.Resistance | app.js:140-151 | resistance is missing exactly when the window is empty |
| Metrics.LevelsFromHeaviestRows | app.js:132-151 | support is strike minus put price of the first row with the most put open interest; resistance is strike plus call price of the first row with the most call open interest |
| Builder.Levels | app.js:139-151 | the two `let` variables, assigned only when `find` found a row, equal `Support` and `Resistance` of the window |
| Metrics.ShownSupport | app.js:132-165 | the shown support is "N/A" on an empty window; otherwise it is strike minus put price of the first heaviest put row, or "N/A" when that is 0 |
| Metrics.ShownResistance | app.js:132-166 | the shown resistance is "N/A" on an empty window; otherwise it is strike plus call price of the first heaviest call row, or "N/A" when that is 0 |
| Metrics.PositionOr | app.js:156-158 | each snapshot price is the fallback or a non-zero element of the list |
| Metrics.Market | app.js:154-159 | `currentPrice` is the index price, and `open`, `high` and `prevClose` are each either the index price or a non-zero strike of the list |
| Metrics.MarketPositions | app.js:154-159 | `open`, `high` and `prevClose` are read from positions 0, `len-1` and `floor(len/2)`, falling back to the index price on a zero element, an empty list or a missing list |
| Builder.SupportOfShownRows | app.js:132-165 | the returned support is "N/A" on an empty table; otherwise it is the strike minus the put price of the first shown row with the largest put open interest, or "N/A" when that is 0 |
| Builder.ResistanceOfShownRows | app.js:132-166 | the returned resistance is "N/A" on an empty table; otherwise it is the strike plus the call price of the first shown row with the largest call open interest, or "N/A" when that is 0 |
| Builder.DedupedDistinct | app.js:58-68 | `allData` has pairwise distinct strikes |
| Builder.WindowRows | app.js:81-88 | the flagged window has at most 17 rows with distinct strikes, is empty iff there are no rows, and is the clamped slice around the anchor |
| Builder.CurrentRowShown | app.js:81-101 | a non-empty flagged window comes from a non-empty list; the row at the anchor's place in the window, `i - max(0, i-8)`, holds the anchor quote and is marked current |
| Builder.CurrentRowStrike | app.js:101 | every row marked current holds the anchor strike |
| Builder.WindowAroundNearestStrike | app.js:58-88 | the table has at most 17 rows with distinct strikes, is empty iff the deduplicated list `allData` is empty, and is the slice of radius 8 around the nearest strike |
| Builder.OneCurrentStrike | app.js:71-101 | a non-empty table has exactly one current row, whose strike is nearest to the index price among all complete entries |
| Builder.FlagsOnShownRows | app.js:90-162 | in the returned table, a flag is set iff no shown row has a larger value of that figure |
| Builder.EveryFlagShown | app.js:90-162 | a non-empty table shows each of the four flags on some row |
| Builder.TotalsOfShownRows | app.js:114-164 | the totals are the sums over the shown rows only, and the ratio is computed from those totals |
| Builder.DuplicateStrikeIgnored | app.js:58-168 | a complete entry repeating an earlier complete strike leaves the whole view model unchanged |
| Builder.IncompleteEntryChangesNothing | app.js:58-168 | an entry without both sides leaves the whole view model unchanged |
| Builder.SameRowsSameView | app.js:58-168 | two payloads with the same `allData`, index price and strike list give the same view model |
| Builder.NoCompleteEntryEmptyTable | app.js:58-125 | when no entry has both a call and a put side, the table is empty and all four totals are 0 |
| Example.ThreeStrikesDeduped | app.js:58-68 | three complete entries with strikes 100, 110 and 120 are all kept, in order |
| Example.ThreeStrikesWindow | app.js:71-88 | at index price 109, the anchor is 110 and the window holds all three rows |
| Example.ThreeStrikesMetrics | app.js:114-151 | the totals are (1200, 7, 800, 14), support is 110 - 2.5, resistance is 120 + 1.2, and the ratio is 800/1200 |
| Example.ThreeStrikesRows | app.js:51-112 | the returned table has the three rows, and the middle row is current |
| Example.ThreeStrikesLevels | app.js:130-166 | the returned support is 107.5 and the returned resistance is 121.2 |
| Example.ThreeStrikesTotals | app.js:114-125 | the returned totals are (1200, 7, 800, 14) |
| Example.ThreeStrikesRatio | app.js:128 | the returned put-call ratio is 800/1200 |

## Left out

- The Express application is not part of this model: the view engine, static files, both routes and `app.listen` (app.js:1-49, 171-173). They are HTTP and template plumbing.
- utils/api.js is not part of this model. It is an outbound HTTP request; its response is the `data` parameter here.
- The rounding and string conversion of `toFixed(2)` (app.js:128, 165-166) are not modelled. PCR, support and resistance stay exact `real` values or `None`, and IEEE-754 rounding of subtraction, addition and division is ignored.
- A missing or non-numeric `underlyingValue` is not modelled; it is always a `real`. In the source, every distance is then NaN and no row beats `Number.MAX_VALUE`. `closestStrike` stays 0 and `findIndex` usually gives -1, so the window becomes the first 8 rows.
- `Math.max` of an empty spread gives `-Infinity` in the source. This is not modelled: `Highest` needs a non-empty window, and an empty window has no rows to flag.
- Object spread (app.js:99-111) also copies any extra fields of an entry and its sides. The model carries only the strike, the open interest, the change in open interest and the last price.
- JavaScript truthiness is modelled only for the values the types allow:
  - `item.CE && item.PE` means a side is present;
  - a falsy `support` or `resistance` means `null` or 0;
  - a falsy snapshot element means it is missing or 0.
- `strikePrices` is modelled as a list of integers, like the strikes themselves.
