# Cipherfolio portfolio components in Dafny

This project models the client-side logic of the Cipherfolio crypto portfolio
dashboard, a Next.js application. It proves properties of that model. The
parts modelled are:

- the holding list the dashboard keeps: adding a lot, with the merge into an
  existing position at a cost-weighted average price; patching a holding;
  removing one; resetting; and joining holdings with market quotes;
- the holdings table: per-row cost, value, profit, ROI, daily change and
  allocation share, the allocation dash, and the inline editor;
- the add-transaction form: the numeric input filter, the coin suggestion
  list, picking a coin, and submitting a lot;
- the market pulse panel: the top three gainers, decliners and volume leaders,
  and the portfolio coverage lines;
- the allocation chart: sorted slices, the five-line legend with percentages,
  the "+N more" note, and the colour cycle.

The JavaScript built-ins this logic relies on are modelled on exact reals and
strings, following ECMA-262:

- `Number(x.toFixed(d))` is `Rounding.RoundTo` (section 21.1.3.3 of ECMA-262).
  It rounds to the nearest multiple of 10^-d, halves away from zero, and
  leaves magnitudes of 10^21 and above unrounded.
- `parseFloat` is `Decimal.ParseFloat` (section 19.2.4 of ECMA-262). It
  returns `None` where JavaScript returns NaN.
- `String(x)` is `Decimal.NumberToString`, written out in positional decimal.
- `trim`, `toLowerCase`/`toUpperCase`, `includes` and `startsWith` live in
  `Text`.
- `filter`, `find`, `slice` and the stable numeric `sort` live in `Seqs`.

Modules, one per file: `Wrappers`, `Seqs`, `Rounding`, `Text`, `Decimal`,
`Reading` (what `parseFloat` reads from typed text, and when it gives NaN), `Arith` (sums and percentages), `Records` (the `CoinMarket`, `PortfolioHolding` and `HoldingWithMarket`
records), `Dashboard`, `HoldingsTable`, `AddAssetForm`, `MarketPulse` and
`AllocationChart`.

Three properties of the code shape the model:

- Positions are merged one incoming lot at a time, at add time. The merged
  amount is stored through toFixed(8) and the merged price through
  toFixed(4). That rounded merge is not associative. Only the unrounded
  average is symmetric and associative (`Dashboard.AverageSymmetric`,
  `Dashboard.AverageAssociative`).
- The edit form (`commitEditing`) stores any number that parses, zero and
  negative values included. The model keeps that behaviour.
- The allocation breakdown, the total value and the other portfolio metrics
  come from `calculatePortfolioMetrics`. Its file, lib/portfolio, is not part
  of this model, so those values enter as parameters.

## Model

| member | source | states |
|---|---|---|
| Dashboard.AveragePrice | components/portfolio-dashboard.tsx:95-99 | the average price times the total amount is the sum of the two lots' costs; it is 0 when the total amount is not positive |
| Dashboard.AverageBetween | components/portfolio-dashboard.tsx:95-99 | with non-negative amounts and a positive total, the average lies between the two lots' prices |
| Dashboard.AverageSymmetric | components/portfolio-dashboard.tsx:95-99 | the unrounded average is the same whichever lot is the existing one |
| Dashboard.AverageSamePrice | components/portfolio-dashboard.tsx:95-99 | adding a lot at the position's own price keeps that price |
| Dashboard.AverageAssociative | components/portfolio-dashboard.tsx:95-99 | for three positive lots, the unrounded average does not depend on which pair is merged first |
| Dashboard.MergedEntry | components/portfolio-dashboard.tsx:100-108 | a merged entry keeps the item's id, symbol, name and image, takes the incoming timestamp, and takes the incoming note exactly when it is non-empty |
| Dashboard.MergedPriceNear | components/portfolio-dashboard.tsx:95-105 | the merged purchase price is within half a unit of the 4th decimal of the amount-weighted average of the two prices, and on that grid, below 10^21, and equals the average from 10^21 up |
| Dashboard.MergedAmountNear | components/portfolio-dashboard.tsx:97-98 | the merged amount is within half a unit of the 8th decimal of the sum of the amounts, and equals the sum from 10^21 up |
| Dashboard.AddHolding | components/portfolio-dashboard.tsx:91-114 | a lot with a new id is appended at the end; otherwise the length is kept; entries with other ids never change |
| Dashboard.AddHoldingMerges | components/portfolio-dashboard.tsx:93-110 | when the id is present, every entry with it becomes its merge with the lot, using the amount and price of the first entry with that id |
| Dashboard.AddHoldingIds | components/portfolio-dashboard.tsx:91-114 | after an add, the set of ids is the old set plus the lot's id |
| Dashboard.AddHoldingUnique | components/portfolio-dashboard.tsx:91-114 | adding keeps ids unique |
| Dashboard.StoredSum | components/portfolio-dashboard.tsx:97-98 | the sum of two positive amounts already stored through toFixed(8) needs no further rounding |
| Dashboard.MergedEntryValid | components/portfolio-dashboard.tsx:95-108 | merging two valid lots gives a valid entry (positive amount, non-negative price, both toFixed fixpoints) whose amount is exactly the sum |
| Dashboard.AddHoldingValid | components/portfolio-dashboard.tsx:91-114 | adding a valid lot to a list of valid holdings keeps every holding valid |
| Dashboard.MergeConservesCost | components/portfolio-dashboard.tsx:95-105 | when the average needs no rounding to 4 decimals, merged amount times merged price equals the cost of the position plus the cost of the lot |
| Dashboard.AddHoldingExample | components/portfolio-dashboard.tsx:91-114 | 1 BTC at 20000 followed by 1 BTC at 30000 yields one position of 2 BTC at 25000 with the new note and timestamp |
| Dashboard.Apply | components/portfolio-dashboard.tsx:119-125 | field by field, a key present in the patch takes the patch's value and a missing key keeps the old value (the `??` fallback for amount and price); the note is kept, cleared to undefined, or set to the given text |
| Dashboard.ApplyLaws | components/portfolio-dashboard.tsx:119-125 | the empty patch changes nothing, and applying a patch twice is the same as applying it once |
| Dashboard.UpdateHolding | components/portfolio-dashboard.tsx:116-129 | length and order are kept, every entry with the id becomes that entry with the patch applied, and entries with other ids are unchanged |
| Dashboard.UpdateUnknownId | components/portfolio-dashboard.tsx:116-129 | updating an id that is not present is a no-op |
| Dashboard.UpdateKeepsIds | components/portfolio-dashboard.tsx:116-129 | a patch without an id key keeps the set of ids, and keeps them unique |
| Dashboard.UpdateIdempotent | components/portfolio-dashboard.tsx:116-129 | repeating the same update changes nothing more, even when the patch renames the id |
| Dashboard.RemoveHolding | components/portfolio-dashboard.tsx:131-133 | after removal the id is absent and the list is no longer |
| Dashboard.RemoveHoldingContents | components/portfolio-dashboard.tsx:131-133 | the ids after removal are the old ids minus the removed one; every other holding survives as often as before and in the same relative order |
| Dashboard.RemoveHoldingUnique | components/portfolio-dashboard.tsx:131-133 | removing keeps ids unique |
| Dashboard.RemoveUnknownId | components/portfolio-dashboard.tsx:131-133 | removing an id that is not present is a no-op |
| Dashboard.RemoveUndoesAdd | components/portfolio-dashboard.tsx:91-133 | removing the id of a freshly appended lot restores the list |
| Dashboard.AddAfterReset | components/portfolio-dashboard.tsx:135-137 | after a reset the list is empty, trivially unique and valid, and an add yields the single lot |
| Dashboard.CoinsById | components/portfolio-dashboard.tsx:75-80 | the keys are exactly the quote ids, and each key maps to a quote from the list that carries it |
| Dashboard.CoinsByIdLatest | components/portfolio-dashboard.tsx:75-80 | the quote kept under an id is the last one in the list with that id |
| Dashboard.CoinsByIdUnique | components/portfolio-dashboard.tsx:75-80 | when quote ids are unique, every quote is found under its own id |
| Dashboard.Enrich | components/portfolio-dashboard.tsx:82-87 | length, order and holdings are kept; a holding has a quote exactly when some quote carries its id, and that quote has the holding's id |
| Dashboard.EnrichLatest | components/portfolio-dashboard.tsx:75-87 | a holding is joined with the last quote in the list that has its id |
| HoldingsTable.Valuate | components/portfolio-table.tsx:78-86 | profit = value - cost; ROI times cost = 100 x profit when cost > 0, else ROI is 0; 100 x daily change = value x pct; allocation times total = 100 x value when total > 0, else 0; without a quote, value and daily change are 0 and profit is minus the cost |
| HoldingsTable.RowSigns | components/portfolio-table.tsx:83-85 | when cost > 0, profit >= 0 exactly when ROI >= 0; when value > 0, daily change >= 0 exactly when the 24h percentage >= 0 |
| HoldingsTable.Allocations | components/portfolio-table.tsx:86 | the allocation column has one entry per row, each equal to that row's allocation share |
| HoldingsTable.AllocationsSumTo100 | components/portfolio-table.tsx:86 | if the total is the positive market value of the rows, the allocation column sums to 100 |
| Arith.PercentagesSumTo100 | components/portfolio-table.tsx:86 | percentages of parts taken against their positive sum add up to 100 |
| HoldingsTable.StoredRoundTrip | components/portfolio-table.tsx:20-24 | a figure on a decimal grid of at most 20 places is read back unchanged from the text the editor drafts, and toFixed at that grid leaves it unchanged |
| HoldingsTable.AllocationShown | components/portfolio-table.tsx:149 | the dash appears exactly when the total is 0; a negative total shows 0.0; otherwise the allocation is shown rounded to one decimal |
| HoldingsTable.AllocationShownClose | components/portfolio-table.tsx:149 | the shown percentage is within 0.05 of the exact allocation |
| HoldingsTable.StartEditing | components/portfolio-table.tsx:20-25 | the row with the holding's id is opened; the note draft is the note, or empty when there is none |
| HoldingsTable.CancelEditing | components/portfolio-table.tsx:27-32 | no row is open and all three drafts are empty |
| HoldingsTable.CommitEditing | components/portfolio-table.tsx:34-44 | a patch is produced exactly when both drafts parse, and nothing happens otherwise; the patch carries the amount rounded to 8 places and the price rounded to 4, the trimmed note or undefined when it is blank, touches no other key, and the editor closes |
| HoldingsTable.EditRoundTrip | components/portfolio-table.tsx:20-44 | opening the editor and saving unchanged drafts leaves a holding unchanged when its figures are on the 8- and 4-decimal grids and its note is absent or has no surrounding blanks |
| HoldingsTable.CommitWritesRounded | components/portfolio-table.tsx:34-44 | when both drafts parse, the edit is saved and the editor closes; the edited holding gets the amount draft's value rounded to 8 places and the price draft's value rounded to 4, and keeps its id, symbol, name, image and timestamp; every other holding is unchanged; when a draft does not parse, no patch is produced and the editor state is unchanged |
| HoldingsTable.CommitKeepsIds | components/portfolio-table.tsx:38-42 | saving an edit keeps every id, so ids stay unique |
| AddAssetForm.Sanitize | components/add-asset-form.tsx:11 | the output contains only digits and '.' |
| AddAssetForm.SanitizeKeeps | components/add-asset-form.tsx:11 | every digit and '.' is kept as often as it occurs, nothing else is kept, and the output is a subsequence of the input |
| AddAssetForm.SanitizeFixpoint | components/add-asset-form.tsx:11 | clean text is returned unchanged, and sanitising is idempotent |
| AddAssetForm.SanitizedNotNegative | components/add-asset-form.tsx:11 | sanitised text never reads as a negative number |
| AddAssetForm.TypeAmount | components/add-asset-form.tsx:124 | the amount input becomes the typed text with every character other than a digit or '.' removed, and every other field of the form is unchanged |
| AddAssetForm.TypePrice | components/add-asset-form.tsx:135 | the price input becomes the typed text with every character other than a digit or '.' removed, and every other field of the form is unchanged |
| AddAssetForm.Suggestions | components/add-asset-form.tsx:23-31 | an empty query gives the first min(6, n) coins; otherwise the first min(8, m) of the m coins whose lower-cased name contains the lower-cased query or whose lower-cased symbol starts with it, in list order |
| AddAssetForm.SuggestionsComplete | components/add-asset-form.tsx:27-30 | suggestions keep list order, and when fewer than 8 are shown every matching coin is among them |
| AddAssetForm.SuggestionsCaseInsensitive | components/add-asset-form.tsx:27-29 | upper-casing the query does not change the suggestions |
| AddAssetForm.SelectedCoin | components/add-asset-form.tsx:21 | the selected coin is the first listed coin with the selected id, or there is none when no coin has that id |
| AddAssetForm.SelectCoin | components/add-asset-form.tsx:33-40 | the query becomes "name (SYMBOL)", the coin is selected, the list closes, and an existing price is kept |
| AddAssetForm.SelectCoinThenRead | components/add-asset-form.tsx:33-40 | after picking a listed coin a coin is selected, and a pre-filled price reads back as the coin's price when it has at most 20 decimals |
| AddAssetForm.NumberToStringSanitized | components/add-asset-form.tsx:37 | the positional text printed for a non-negative price contains only digits and '.' |
| AddAssetForm.HandlersKeepInputsSanitized | components/add-asset-form.tsx:124-135 | typing, picking a coin with a non-negative price (printed positionally), and submitting, checked or not, all leave the amount and price inputs sanitised |
| AddAssetForm.NoteOf | components/add-asset-form.tsx:59 | the note is undefined exactly when its trim is empty, and is the trimmed text otherwise |
| AddAssetForm.Submit | components/add-asset-form.tsx:42-69 | a lot is produced exactly when a coin is selected and both inputs parse to numbers > 0; it carries the coin's id, symbol, name and image, the rounded figures, the note and the timestamp; the form is then cleared, and otherwise left unchanged |
| AddAssetForm.RoundsToZero | components/add-asset-form.tsx:57 | toFixed(8) turns any amount below 0.000000005 into 0 |
| AddAssetForm.SubmitStoresTiny | components/add-asset-form.tsx:49-57 | with a coin selected, any amount that reads as a number strictly between 0 and 0.000000005 and a positive price pass the check but store an amount of 0, which is not a valid holding |
| AddAssetForm.SubmitStoresZeroAmount | components/add-asset-form.tsx:49-57 | for any form with a coin selected, the amount "0.000000001" with price "1" passes the check but is stored as 0, which is not a valid holding |
| AddAssetForm.SubmitChecked | components/add-asset-form.tsx:42-69 | the corrected submission: any lot produced is valid with a positive price, and has the same fields as before |
| AddAssetForm.SubmitCheckedRefinesSubmit | components/add-asset-form.tsx:49-58 | the corrected submission agrees with the written one whenever it accepts, and refuses only lots the written one stores with a zero amount or price |
| AddAssetForm.SubmitCheckedKeepsPortfolioValid | components/add-asset-form.tsx:52-63 | adding a lot from the corrected form keeps a valid portfolio valid |
| MarketPulse.TopBy | components/market-pulse.tsx:14-27 | filter, stable descending sort, first n: the result has min(n, eligible) coins, all eligible, in non-increasing key order |
| MarketPulse.TopByFromList | components/market-pulse.tsx:14-27 | each list holds its coins at most as often as the quote list does; with at most n eligible coins it holds exactly the eligible ones |
| MarketPulse.TopByIsTop | components/market-pulse.tsx:14-27 | the result is drawn from the list; any eligible coin left out ranks no higher than every coin shown; with at most n eligible coins, all of them are shown |
| MarketPulse.TopByStable | components/market-pulse.tsx:16 | coins tied on the key keep their list order |
| MarketPulse.Gainers | components/market-pulse.tsx:14-17 | min(3, m) coins, where m coins report a 24h change, all reporting one, in non-increasing order of change, each drawn from the quote list no more often than it occurs there |
| MarketPulse.Decliners | components/market-pulse.tsx:19-22 | min(3, m) coins, where m coins report a 24h change, all reporting one, in non-decreasing order of change, each drawn from the quote list no more often than it occurs there |
| MarketPulse.VolumeLeaders | components/market-pulse.tsx:24-27 | min(3, m) coins, where m coins report a volume, all reporting one, in non-increasing order of volume, each drawn from the quote list no more often than it occurs there |
| MarketPulse.MoversAreExtremes | components/market-pulse.tsx:14-22 | no coin that reports a change and is left out beats any gainer shown or undercuts any decliner shown, and both lists are drawn from the quote list |
| MarketPulse.VolumeLeadersAreTop | components/market-pulse.tsx:24-27 | no coin that reports a volume and is left out outranks any leader shown; leaders come from the list |
| MarketPulse.Coverage | components/market-pulse.tsx:29-36 | one line per holding in the same order, with its id and symbol; delta and price are 0 without a quote |
| MarketPulse.CoverageAgreesWithTable | components/market-pulse.tsx:33-34 | each coverage line shows the same price and 24h change as the holding's table row |
| MarketPulse.CoverageOfEnriched | components/market-pulse.tsx:29-36 | with unique quote ids, a quoted holding's line shows that quote's price and change |
| AllocationChart.ToData | components/visual-allocation-chart.tsx:17-22 | one slice per allocation entry, in order, named by its symbol |
| AllocationChart.ChartData | components/visual-allocation-chart.tsx:15-24 | empty for no entries or a zero total; otherwise a permutation of the entries' slices in non-increasing order of value |
| AllocationChart.ChartDataStable | components/visual-allocation-chart.tsx:23 | slices of equal value keep the order of the breakdown |
| AllocationChart.ColorOf | components/visual-allocation-chart.tsx:55 | every index gets a colour from the palette (the index is always in range) |
| AllocationChart.ColorsDistinct | components/visual-allocation-chart.tsx:8 | the palette holds 7 distinct colours |
| AllocationChart.ColorCycle | components/visual-allocation-chart.tsx:55 | slices fewer than 7 apart have different colours; colours repeat every 7 slices |
| AllocationChart.PieColors | components/visual-allocation-chart.tsx:54-56 | slice i of the pie is coloured COLORS[i mod 7] |
| Arith.PercentOf | components/visual-allocation-chart.tsx:66 | with a positive whole, the percentage times the whole is 100 times the part; with a whole that is not positive, the percentage is 0 |
| AllocationChart.Legend | components/visual-allocation-chart.tsx:65-81 | min(5, n) lines, the first slices, each with its label, value, share, share rounded to one decimal, and the colour of its slice |
| AllocationChart.Overflow | components/visual-allocation-chart.tsx:82 | the note appears exactly when there are more than 5 slices, with a positive count |
| AllocationChart.LegendAccountsForAll | components/visual-allocation-chart.tsx:63-82 | legend lines plus the note's count equal the number of slices; legend dots match the pie colours; on sorted data, legend values are at least those of unlisted slices |
| AllocationChart.LegendColorsDistinct | components/visual-allocation-chart.tsx:72 | no two legend lines share a colour |
| AllocationChart.SharesSumTo100 | components/visual-allocation-chart.tsx:66 | when the total is the positive sum of the slice values, the legend shares of all slices sum to 100 |
| Rounding.RoundTo | components/portfolio-dashboard.tsx:98 | below 10^21 the result is on the d-decimal grid and within half a grid unit of x; from 10^21 up it is x; the sign is kept; a value exactly halfway between two grid points goes to the one farther from zero |
| Rounding.RoundToOnGrid | components/portfolio-dashboard.tsx:105 | a value already on the grid is unchanged |
| Rounding.RoundToIdempotent | components/portfolio-table.tsx:39-40 | rounding a rounded value changes nothing |
| Rounding.RoundToNearest | components/portfolio-table.tsx:39-40 | no grid point is closer to x than the rounded value |
| Rounding.RoundToAtLeast | components/portfolio-dashboard.tsx:98 | rounding never drops below a non-negative grid value that is at most x |
| Rounding.OnGridFiner | components/portfolio-table.tsx:22-23 | a value on the d-decimal grid is on every finer grid |
| Decimal.ParseFloat | components/add-asset-form.tsx:46-47 | the result is a number exactly when, after leading white space and at most one sign, the text starts with a digit or with a point followed by a digit; NaN otherwise |
| Reading.ParseFloatOf | components/add-asset-form.tsx:46-47 | leading white space, an optional sign, a decimal literal with at least one digit whose point, if present, is followed by a digit, then anything that does not continue the literal, reads as the literal's value, negated after a minus |
| Reading.ParseFloatExponent | components/portfolio-table.tsx:34-35 | a literal whose point, if present, is followed by a digit, then `e` or `E`, an optional sign and digits reads as the literal's value times 10 to the exponent those digits spell, negated after a minus sign |
| Reading.ParseFloatScaled | components/portfolio-table.tsx:34-35 | a literal whose point, if present, is followed by a digit, then any text that does not continue its digits, reads as its value scaled by the exponent at the head of that text |
| Reading.ParseFloatTrailingPoint | components/add-asset-form.tsx:46-47 | digits ending in a point, after blanks and an optional sign, read as the digits' value scaled by the exponent at the head of the text after the point, as "5.", "5.x" and "4.e+2x" are |
| Reading.ParseFloatTrailingPointPlain | components/add-asset-form.tsx:46-47 | digits ending in a point and followed by no digit and no exponent mark read as the digits' value, negated after a minus |
| Reading.ParseFloatNoLiteral | components/add-asset-form.tsx:46-47 | text whose first non-blank character is not a sign, a digit or a point is NaN, as "x1" is |
| Reading.ParseFloatBarePoint | components/add-asset-form.tsx:46-47 | a point that is not followed by a digit, after an optional sign, is NaN, as "..5" is |
| Decimal.ExponentPartOf | components/portfolio-table.tsx:34-35 | an exponent mark, an optional sign and digits give the exponent those digits spell, negated after a minus |
| Reading.ParseSignedOf | components/portfolio-table.tsx:34-35 | a minus before an unsigned literal negates its value and a plus keeps it |
| Decimal.NumberToString | components/add-asset-form.tsx:37 | the printed text is non-empty and starts with no white space, so it is read back from its first character |
| Decimal.NumberToStringRoundTrip | components/portfolio-table.tsx:22-23 | reading back String(x) gives x for every x with at most 20 decimals |
| Decimal.SignedRoundTrip | components/portfolio-table.tsx:22-23 | reading back the signed text of x with k fraction digits gives x when x is on the k-decimal grid |
| Text.Trim | components/add-asset-form.tsx:59 | the result is empty exactly when the text is all blanks, has no blank at either end, and is the text with only blanks removed before and after it |
| Text.Contains | components/add-asset-form.tsx:29 | true exactly when the needle occurs somewhere in the text |
| Text.Lower | components/add-asset-form.tsx:27 | each character is mapped to lower case, and the length is kept |
| Text.Upper | components/add-asset-form.tsx:34 | each character is mapped to upper case, and the length is kept |
| Seqs.Filter | components/portfolio-dashboard.tsx:132 | every kept element satisfies the predicate, and the result is no longer |
| Seqs.FilterMultiset | components/portfolio-dashboard.tsx:132 | passing elements are kept as often as they occur, and the others are dropped |
| Seqs.FilterIsSubseq | components/portfolio-dashboard.tsx:132 | filtering keeps relative order |
| Seqs.FirstIndex | components/portfolio-dashboard.tsx:93 | the index returned is the first match, and none is returned only when nothing matches |
| Seqs.SortDesc | components/market-pulse.tsx:16 | the output is sorted non-increasing by key and is a permutation of the input |
| Seqs.SortDescStable | components/market-pulse.tsx:16 | elements with equal keys keep their input order |
| Seqs.Take | components/add-asset-form.tsx:25 | a prefix of length min(n, length) |

## Left out

- `calculatePortfolioMetrics`: lib/portfolio is not part of this model. The totals, allocation breakdown, volatility, risk labels, performers and insights it computes are not modelled; totals and the breakdown enter as parameters.
- app/api/coins/route.ts: an HTTP proxy to the market-data provider, pure network I/O.
- Loading from and saving to localStorage, and the two-minute fetch polling with its AbortController: I/O, timers and cancellation.
- JSX rendering, CSS classes, the Recharts components and the tooltip, and `formatCurrency`/`formatPercent`/`formatCompact`: presentation. lib/format is not part of this model.
- components/portfolio-snapshot.tsx, components/strategic-insights.tsx and next.config.mjs: presentation and build configuration.
- `new Date().toISOString()`: the timestamp is the parameter `now` of `AddAssetForm.Submit`.
- The `[...coins]` copies before sorting: sequences are values, so sorting can never reorder the caller's list.
- Rounding.RoundTo: works on exact reals. IEEE double rounding, and the binary representation error that toFixed sees, are not modelled.
- Decimal.ParseFloat: "Infinity" and "-Infinity" read as `None`, where JavaScript gives an infinite number. `real` has no infinity.
- NumberToStringSanitized: holds for the positional text the model prints. JavaScript's `String` prints a price below 10^-6 as, for example, "1e-7", which contains 'e' and '-', so the claim does not carry over to such prices.
- HandlersKeepInputsSanitized: the coin-pick case relies on NumberToStringSanitized and carries the same gap for prices below 10^-6 or from 10^21 up.
- Decimal.NumberToString: always prints positional decimals cut at 20 fraction digits. JavaScript's exponent notation (from 10^21 up and below 10^-6) and its shortest-round-trip digit choice are not modelled. The round trip is claimed only for values with at most 20 decimals.
- Text.Lower: maps ASCII letters only. Unicode case mapping is not modelled.
- Text.Upper: maps ASCII letters only. Unicode case mapping is not modelled.
- Dashboard.CoinsById: keys are plain strings. Quote ids that collide with Object.prototype members (such as "constructor") are not modelled.
- Dashboard.HoldingUpdate: keys of a partial update are either absent or set to a value. Only the note can be set to `undefined` explicitly, as `commitEditing` does. An explicit `undefined` for the other string fields is not modelled.
- NaN values inside quotes (a `number`-typed NaN change or volume) are not modelled: `real` has no NaN. Sorting with NaN comparisons is therefore out of scope.
- The "+N more positions" text and the toFixed(1) percentage text are modelled as the numbers they print, not as strings.

## Findings

| source | as written | input that shows it | evidently intended | confidence | as-written member | corrected member |
|---|---|---|---|---|---|---|
| components/add-asset-form.tsx:50-58 | the check `parsed > 0` runs on the parsed numbers, before they are stored through toFixed(8) and toFixed(4) | amount "0.000000001" with price "1" is recorded with amount 0; price "0.00004" is recorded as 0 | only lots whose stored amount and stored price are positive are recorded | not executed | AddAssetForm.SubmitStoresZeroAmount | AddAssetForm.SubmitChecked |
