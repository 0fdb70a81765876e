# deck-stats in Dafny

This project models the computational core of deck-stats, a small web app for Magic: The Gathering Commander decks. A user pastes a deck list and the app parses the card names. It then fetches each card's data (salt, price, popularity) from EDHREC and draws one histogram per statistic. Each histogram has ten buckets, bar colours, a total and an average.

The model covers these parts of the app:

- **DeckList**: `getCardNameList`. It is defined identically in `src/App.tsx` and `src/components/slides/InputSlide.tsx`. It splits on `"\n"`, then keeps each line's match of `/([A-Za-z].*)/`. The match starts at the first ASCII letter and ends at the next line terminator. Lines with no match are dropped.
- **EdhrecRepo**: `fetchCardData` once the network has answered:
  - the URL slug of a card name and the card URL;
  - the finite prices and their halving fold;
  - the unguarded popularity quotient;
  - the record the promise resolves to.
- **InputSlide**: `onShowMeTheStats`. Each parsed name is paired with its settled fetch. The batch then either reports the names whose fetch failed, in order, or delivers all records, in order.
- **DeckStatsApp**: the `App` component as a class over its two signals, `deckList` and `fetchedCardData`. It covers:
  - the text field's `onChange`;
  - `onClickHandler`, where `Promise.all` rejects if any fetch rejects and the stored data then stay as they were;
  - the three per-statistic data arrays handed to the reports.
- **Metric**: the three `Stat` values (range only) and the projection of records onto one statistic.
- **Histogram**: the bucketing loop of `StatReport` and of `StatChart` in `ChartSlide.tsx`. The two are the same code, so one model serves both. The loop is a method over a ten-slot `array<int>`. It is proved against a pure tally of the bucket indices.
  - Writes whose index is not a slot 0..9 are returned as "strays". One kind is the clamped index 10 of the maximum.
  - The other kind is a NaN index. Every finite point gets one when `min()` is NaN, which happens as soon as one record lacks the field. The same happens when all points are equal and the width is 0, since the index is then 0/0.
  - The intended bucketing, clamped to 9, is modelled beside it.
- **StatChart**: the bucket labels, the bar background colour, and `total` and `average`, as the two report components compute them.
- **Util**: `colorLerp` and `toCSSColor`.

JavaScript numbers are modelled by `JsNumber.Num`: an exact real, `NaN`, or one of the two infinities. An `undefined` field read `as number` is modelled as `NaN`. Arithmetic, comparisons, `Math.min`/`Math.max` and `isFinite` all treat `undefined` exactly as they treat NaN. The one place this differs is a `reduce` over a single element; "## Left out" covers it.

## Model

| member | source | states |
|---|---|---|
| Strings.Split | src/App.tsx:20 | `split("\n")` gives at least one piece and one more piece than there are separators. No piece contains the separator. Joining the pieces with the separator gives the text back. |
| Strings.SplitAppend | src/App.tsx:20 | Splitting `a + sep + b` gives the pieces of `a` followed by the pieces of `b`. |
| Strings.SplitWithoutSeparator | src/App.tsx:20 | A text without the separator is a single piece. |
| DeckList.FirstLetterFrom | src/App.tsx:18 | Finds the first `[A-Za-z]` at or after a position. When none exists, no character from there on is an ASCII letter. |
| DeckList.RunEnd | src/App.tsx:18 | The greedy `.*` stops exactly at the first line terminator, or at the end of the line. |
| DeckList.MatchLine | src/App.tsx:18-24 | A line has no match exactly when it contains no ASCII letter. A match is a well-formed name and sits in the line after a letter-free prefix, ending at a terminator or at the end of the line. |
| DeckList.CardNameList | src/App.tsx:17-27 | `getCardNameList`. At most one name per line, and every name is well formed. CardNameListBounds, CardNameListAppend and CardNameListOfLine characterise it. |
| DeckList.KeepTruthy | src/App.tsx:26 | `.filter((cardName) => cardName)`. It keeps no more entries than it is given, and every kept name is non-empty and one of the matches. |
| DeckList.MatchAll | src/App.tsx:21-25 | One match result per line, in line order. |
| DeckList.MatchAllAppend | src/App.tsx:21-25 | Matching distributes over concatenated line lists. |
| DeckList.KeepTruthyAppend | src/App.tsx:26 | The truthiness filter keeps order and distributes over concatenation. |
| DeckList.KeepTruthyBounds | src/App.tsx:26 | The filter never adds entries. Every kept name was one of the matches. |
| DeckList.CardNameListAppend | src/App.tsx:17-27 | The names of `a + "\n" + b` are the names of `a` followed by the names of `b`. |
| DeckList.CardNameListOfLine | src/App.tsx:20-26 | A text without a newline yields its match, or nothing. |
| DeckList.CardNameListBounds | src/App.tsx:17-27 | At most one name per line. Every name is well formed and is the match of some line. |
| DeckList.EmptyDeckList | src/App.tsx:17-27 | Empty text yields no names. |
| DeckList.QuantityIsStripped | src/App.tsx:18-24 | `"1 Sol Ring"` yields `"Sol Ring"`. |
| DeckList.NonAsciiLetterIsLost | src/App.tsx:18 | `"Æther Vial"` yields `"ther Vial"`, because `Æ` is not in `[A-Za-z]`. |
| DeckList.CarriageReturnIsDropped | src/App.tsx:18-20 | A CRLF line loses its `"\r"`, because `.` does not match a line terminator. |
| DeckList.RunEndAt | src/App.tsx:18 | A run ends at the first line terminator after its start. |
| DeckList.BlankLineBetween | src/App.tsx:20-26 | A blank line between two deck lists adds no name. |
| DeckList.BlankLineIsDropped | src/App.tsx:20-26 | `"1 Sol Ring\n\n2 Counterspell"` yields exactly the two names. |
| EdhrecRepo.FormatCardName | src/repo/edhrecRepo.ts:26 | The slug chain `toLowerCase().replaceAll(" ", "-").replaceAll(",", "").replaceAll("'", "")`. FormatCardNameIsSlug and FormatCardNameProperties state what it yields. |
| EdhrecRepo.FormatCardNameIsSlug | src/repo/edhrecRepo.ts:26 | The chain of `toLowerCase` and three `replaceAll` calls equals a one-pass, per-character slug definition. |
| EdhrecRepo.ToLowerCaseAppend | src/repo/edhrecRepo.ts:26 | `toLowerCase` distributes over concatenation. |
| EdhrecRepo.ReplaceAllAppend | src/repo/edhrecRepo.ts:26 | `replaceAll` of one character distributes over concatenation. |
| EdhrecRepo.SlugAppend | src/repo/edhrecRepo.ts:26 | The slug distributes over concatenation. |
| EdhrecRepo.SlugOfSafe | src/repo/edhrecRepo.ts:26 | A string of slug-safe characters and hyphens is its own slug. |
| EdhrecRepo.SlugProperties | src/repo/edhrecRepo.ts:26 | A slug has no space, comma, apostrophe or ASCII capital. Its length is the name's length minus the commas and apostrophes. Formatting it again changes nothing. |
| EdhrecRepo.FormatCardNameProperties | src/repo/edhrecRepo.ts:26 | The formatted card name is slug-safe, has the length above, and is a fixed point of formatting. |
| EdhrecRepo.SlugPointwise | src/repo/edhrecRepo.ts:26 | Without commas or apostrophes, the slug maps the name character by character: a space becomes a hyphen, and an ASCII capital is lowered. |
| EdhrecRepo.JaceSlug | src/repo/edhrecRepo.ts:26 | `"Jace, the Mind Sculptor"` becomes `"jace-the-mind-sculptor"`. |
| EdhrecRepo.DiacriticsAreKept | src/repo/edhrecRepo.ts:26 | `"Séance"` becomes `"séance"`: diacritics are not stripped. |
| EdhrecRepo.PeriodsAreKept | src/repo/edhrecRepo.ts:26 | `"Dr. Julius"` becomes `"dr.-julius"`: periods are not stripped. |
| EdhrecRepo.CardUrl | src/repo/edhrecRepo.ts:27 | Builds the template URL: the endpoint, then the slug, then `.json`. CardUrlRoundTrip inverts it. |
| EdhrecRepo.CardUrlRoundTrip | src/repo/edhrecRepo.ts:27 | The card URL is the fixed endpoint, then the slug, then `.json`. Parsing the URL gives the slug back. |
| EdhrecRepo.CardUrlInjective | src/repo/edhrecRepo.ts:27 | Different slugs give different URLs. |
| EdhrecRepo.FinitePrices | src/repo/edhrecRepo.ts:33 | Keeps only finite prices, each from an entry, at most one per entry. The result is empty exactly when no entry is finite. |
| EdhrecRepo.FinitePricesAppend | src/repo/edhrecRepo.ts:33 | The filter keeps the key order. |
| EdhrecRepo.FilteredPrices | src/repo/edhrecRepo.ts:32-33 | `filteredPrices`: the finite prices of the card, in key order. It is empty when the card or its `prices` is missing. |
| EdhrecRepo.AveragePrice | src/repo/edhrecRepo.ts:32-37 | The price is undefined exactly when the card, its `prices`, or every finite entry is missing. Otherwise it lies between the smallest and the largest kept price. |
| EdhrecRepo.TwoFinitePrices | src/repo/edhrecRepo.ts:32-37 | Prices 10 and 20 plus a non-numeric entry give 15. |
| EdhrecRepo.NoPrices | src/repo/edhrecRepo.ts:32-37 | An empty `prices` object gives no price. |
| EdhrecRepo.Popularity | src/repo/edhrecRepo.ts:39 | Undefined exactly when the card is absent. The plain quotient when both counts are present and the denominator is non-zero. NaN when a count is missing. ±Infinity or NaN, by the sign of the numerator, when the denominator is 0. |
| EdhrecRepo.ExtractRecord | src/repo/edhrecRepo.ts:41-46 | The record carries the slug as its name, the card's `salt` when the card is present, the folded price and the popularity. |
| EdhrecRepo.FetchCardData | src/repo/edhrecRepo.ts:25-47 | The promise rejects exactly on a network or decoding failure. |
| EdhrecRepo.RecordIsNamedBySlug | src/repo/edhrecRepo.ts:26-46 | A resolved record is named by its slug, not by the caller's name. That slug is a fixed point of formatting and is recovered from its URL. An absent card leaves salt, price and popularity undefined. |
| InputSlide.ToOutcome | src/components/slides/InputSlide.tsx:46-58 | The outcome keeps the card name. Its data is null exactly when the fetch rejected, and otherwise is the fetched record. |
| InputSlide.Outcomes | src/components/slides/InputSlide.tsx:44-60 | One outcome per name, in the order of the names. |
| InputSlide.Records | src/components/slides/InputSlide.tsx:79-81 | When no outcome is null, one record per outcome, in order. |
| InputSlide.FailedNames | src/components/slides/InputSlide.tsx:62-67 | Collects the names of the null outcomes, in order. FailedNamesEmpty, FailedNamesAppend and FailedNamesAreFailures state its properties. |
| InputSlide.Classify | src/components/slides/InputSlide.tsx:61-82 | Reports failures exactly when some outcome is null. The reported list is then non-empty and holds the null outcomes' names. Otherwise it delivers every record in order. |
| InputSlide.FailedNamesEmpty | src/components/slides/InputSlide.tsx:62-66 | The failed-name list is empty exactly when every outcome has data. |
| InputSlide.FailedNamesAppend | src/components/slides/InputSlide.tsx:62-67 | Failed names keep the order of the outcomes. |
| InputSlide.FailedNamesAreFailures | src/components/slides/InputSlide.tsx:62-67 | Every reported name belongs to a null outcome. There are no more reported names than outcomes. |
| InputSlide.ShowMeTheStats | src/components/slides/InputSlide.tsx:43-82 | Parses the deck list, pairs each name with its settled fetch, and classifies the batch. ShowMeTheStatsOutcome states the result. |
| InputSlide.ShowMeTheStatsOutcome | src/components/slides/InputSlide.tsx:43-82 | For a parsed deck list, the batch reports failures exactly when some fetch rejected, naming those fetches in order. Otherwise it delivers one record per parsed name, each the record its fetch resolved to. |
| InputSlide.FailureIsReportedByName | src/components/slides/InputSlide.tsx:61-77 | A batch A, B, C where only B rejects reports exactly `["B"]`. |
| Metric.Range | src/model/stat.ts:9-27 | Each statistic's colour range has a lower bound below its upper bound: Salt 0..2, Cost 0..100, Popularity 0..0.5. |
| Metric.Project | src/App.tsx:120-138 | One value per record. A value is finite exactly when the record has that field, and it is then the field's value. |
| Util.Clamp | src/util.ts:8-12 | The parameter is clamped into [0, 1]. A value already inside is kept. |
| Util.Channel | src/util.ts:13-15 | One channel: `a * (1 - t) + b * t`. ChannelBetween bounds it. |
| Util.ChannelBetween | src/util.ts:13-15 | A channel with the parameter in [0, 1] lies between the two end channels. |
| Util.ColorLerp | src/util.ts:7-17 | Gives the first colour for v ≤ 0 and the second for v ≥ 1. Every channel lies between the two colours' channels. |
| Util.LerpSameColor | src/util.ts:7-17 | Interpolating a colour with itself gives that colour. |
| Util.LowToHighIsMonotone | src/util.ts:2-17 | From the low to the high colour, red and blue never fall and green never rises as v grows. |
| Util.ChannelsAreIndependent | src/util.ts:13-15 | Each channel depends only on the same channel of the two colours. |
| Util.ToCssColor | src/util.ts:19-21 | Builds the text `rgb(r,g,b)` from the three channels. CssColorRoundTrip parses it back. |
| Util.CssColorRoundTrip | src/util.ts:19-21 | `rgb(r,g,b)` parses back to the three channel strings. |
| JsNumber.MinOf | src/components/StatReport.tsx:23 | `Math.min(...data)`: +Infinity for no data, NaN if any value is NaN. NaNAbsorbs and MinMaxOfReals state this. |
| JsNumber.MaxOf | src/components/StatReport.tsx:24 | `Math.max(...data)`: −Infinity for no data, NaN if any value is NaN. |
| JsNumber.NaNAbsorbs | src/components/StatReport.tsx:23-24 | With a NaN among the data, `Math.min` and `Math.max` are NaN. |
| Folds.HalvingFold | src/repo/edhrecRepo.ts:35-37 | The fold `(accum + next) / 2` from the first element on. HalvingFoldBounds, HalvingFoldIsNotMean and HalvingFoldIsOrderDependent state its properties. |
| Folds.Sum | src/components/StatReport.tsx:74-76 | The sum of the values. TotalOfReals ties `total` to it, and SumPermutation shows it is order-independent. |
| Folds.Mean | src/components/StatReport.tsx:78-80 | The arithmetic mean, the evidently intended average. MeanBounds and MeanPermutation state its properties. |
| Folds.HalvingFoldBounds | src/repo/edhrecRepo.ts:35-37 | The halving fold lies between the smallest and the largest value. |
| Folds.HalvingFoldSingleton | src/repo/edhrecRepo.ts:35-37 | The fold of one value is that value. |
| Folds.SumPermutation | src/components/StatReport.tsx:74-76 | The sum behind `total` does not depend on the order of the values. |
| Folds.HalvingFoldIsNotMean | src/components/StatReport.tsx:78-80 | The halving fold of [1, 2, 3] is 2.25, while their mean is 2. |
| Folds.HalvingFoldIsOrderDependent | src/repo/edhrecRepo.ts:35-37 | [1, 2, 3] and [3, 2, 1] have the same values but fold to 2.25 and 1.75. |
| Folds.MeanBounds | src/components/StatReport.tsx:78-80 | The intended average, the arithmetic mean, lies between the minimum and the maximum. |
| Folds.MeanPermutation | src/components/StatReport.tsx:78-80 | The intended average does not depend on the order of the values. |
| Histogram.BucketSize | src/components/StatReport.tsx:26-27 | `(max() - min()) / 10`. BucketSizeOfReals gives its value on finite data. |
| Histogram.BucketIndex | src/components/StatReport.tsx:35-38 | `Math.floor((x - min) / size)`, clamped to 10 when it is at least 10. PointIndex gives its value inside the range. |
| Histogram.Indices | src/components/StatReport.tsx:33-38 | The index of each finite point, in data order. IndicesCount counts them. |
| Histogram.FillBuckets | src/components/StatReport.tsx:29-41 | The loop's ten buckets equal the tally of the bucket indices of the finite points, in order. Every write outside slots 0..9 is returned as a stray. |
| Histogram.Increment | src/components/StatReport.tsx:39 | `buckets[bucketIndex] += 1` adds one to the indexed slot, or records a stray. |
| Histogram.Tally | src/components/StatReport.tsx:32-39 | Ten counters. |
| Histogram.WriteStep | src/components/StatReport.tsx:39 | One more write raises exactly its slot by one, or adds one stray. |
| Histogram.TallyAccountsForEveryWrite | src/components/StatReport.tsx:32-41 | The counts plus the strays account for every write. |
| Histogram.TallyCountsWrites | src/components/StatReport.tsx:32-41 | Slot k counts exactly the writes with index k. |
| Histogram.StraysAreNotSlots | src/components/StatReport.tsx:36-39 | Strays are writes whose index is not a slot. When every index is a slot, there are no strays. |
| Histogram.IndicesCount | src/components/StatReport.tsx:33-35 | One bucket index per finite point. |
| Histogram.EveryFinitePointIsWrittenOnce | src/components/StatReport.tsx:33-41 | Counts plus strays equal the number of finite points. |
| Histogram.MinMaxOfReals | src/components/StatReport.tsx:23-24 | On finite data, `Math.min` and `Math.max` are the least and the greatest value. |
| Histogram.BucketSizeOfReals | src/components/StatReport.tsx:26-27 | On finite data the bucket size is (max − min) / 10. |
| Histogram.PointIndex | src/components/StatReport.tsx:35-38 | A point inside [min, max) gets the slot of floor((x − min) / size). The maximum gets index 10. |
| Histogram.StraysOfRange | src/components/StatReport.tsx:35-39 | When max > min, the strays are exactly the maximum's occurrences, each with index 10. |
| Histogram.MaximumIsNotCounted | src/components/StatReport.tsx:35-39 | When max > min, the buckets count every point except the occurrences of the maximum. There is at least one stray. |
| Histogram.FiniteCountOfReals | src/components/StatReport.tsx:34 | Every real point passes `isFinite`. |
| Histogram.TwoPointsOneCounted | src/components/StatReport.tsx:35-39 | On [0, 1] the buckets count only 1 point, and the other write goes to index 10. |
| Histogram.EqualPointsAreNotCounted | src/components/StatReport.tsx:27-39 | With a zero bucket size, every index is 0/0 = NaN. No bucket is raised and every write is a stray. |
| Histogram.EqualData | src/components/StatReport.tsx:23-39 | All-equal data leaves every bucket at zero. |
| Histogram.NaNOffsetIsNotCounted | src/components/StatReport.tsx:30-39 | With a NaN offset, every finite point's index is NaN. No bucket is raised and every write is a stray. |
| Histogram.NaNDataIsNotCounted | src/components/StatReport.tsx:23-39 | One NaN value (a record without the field) leaves every bucket at zero. Every finite point becomes a stray NaN write. |
| Histogram.OneMissingValueEmptiesTheChart | src/components/StatReport.tsx:23-39 | The data [1, NaN, 2] count nothing, and both finite points are strays. |
| Histogram.IntendedIndex | src/components/StatReport.tsx:35-38 | The evidently intended index: a zero width gives bucket 0, and the top of the range goes to 9. IntendedPointIndex states its properties. |
| Histogram.IntendedHistogram | src/components/StatReport.tsx:29-41 | The intended histogram has ten counts. |
| Histogram.IntendedPointIndex | src/components/StatReport.tsx:35-38 | The intended index of a point is always a slot, and it agrees with the written index strictly inside (min, max). |
| Histogram.IntendedIndicesAreSlots | src/components/StatReport.tsx:35-38 | Every intended index of in-range data is a slot. |
| Histogram.IntendedHistogramCountsEveryPoint | src/components/StatReport.tsx:29-41 | The intended buckets count every point. |
| Histogram.TwoPointsBothCounted | src/components/StatReport.tsx:29-41 | On [0, 1] the intended buckets count both points. |
| Histogram.IntendedEqualPoints | src/components/StatReport.tsx:27-39 | With a zero bucket size, the intended bucketing puts every point in bucket 0. |
| Histogram.FiniteValues | src/components/StatReport.tsx:33-34 | One value per finite point, in order, each a value of the data. |
| Histogram.IntendedHistogramOf | src/components/StatReport.tsx:23-41 | The intended histogram of data with missing values: they are skipped, not allowed to poison `min()`. It has ten counts. |
| Histogram.IntendedHistogramSkipsMissingValues | src/components/StatReport.tsx:23-41 | The intended histogram counts every finite point, whatever else the data hold. |
| Histogram.MissingValueKeepsTheOthers | src/components/StatReport.tsx:23-41 | On [1, NaN, 2] the intended histogram counts both finite points. |
| Histogram.UniformSampleInFirstBucket | src/components/StatReport.tsx:29-41 | The intended histogram of [5, 5, 5, 5] is [4, 0, …, 0]. |
| StatChart.Midpoint | src/components/StatReport.tsx:44 | `min() + bucketSize() * (index + 0.5)`. MidpointInsideBucket, MidpointValue and the three edge-case lemmas state its value. |
| StatChart.Labels | src/components/StatReport.tsx:43-46 | Ten labels, each `~` followed by the displayed midpoint of its bucket. |
| StatChart.RealsSpread | src/components/StatReport.tsx:23-24 | Finite data with max > min has that minimum and that maximum. |
| StatChart.MidpointInsideBucket | src/components/StatReport.tsx:44 | When max > min, bucket i's midpoint lies strictly between min and max and falls into bucket i itself. |
| StatChart.MidpointValue | src/components/StatReport.tsx:44 | Bucket i's midpoint is i + 0.5 bucket widths above the minimum. |
| StatChart.EqualDataMidpoints | src/components/StatReport.tsx:44 | All-equal data labels every bucket with that value. |
| StatChart.EmptyDataMidpoints | src/components/StatReport.tsx:44 | On empty data every midpoint is NaN: `Math.min()` is Infinity and the width is −Infinity. |
| StatChart.NaNDataMidpoints | src/components/StatReport.tsx:44 | A NaN point makes every midpoint NaN. |
| StatChart.LerpAt | src/util.ts:7-17 | A NaN parameter gives no colour, since every channel is NaN. −Infinity gives the first colour and +Infinity the second. A finite parameter gives `colorLerp`. |
| StatChart.ColorOf | src/components/StatReport.tsx:61-71 | No colour exactly for a NaN midpoint. +Infinity gives the high colour and −Infinity the low colour. |
| StatChart.BarColor | src/components/StatReport.tsx:61-71 | A bar has a colour exactly when its midpoint is not NaN. |
| StatChart.ColorParameter | src/components/StatReport.tsx:66-69 | Computes `(mid - range[0]) / (range[1] - range[0])`. Its properties are in ColorParameterMonotone and ColorParameterEnds. |
| StatChart.ColorParameterMonotone | src/components/StatReport.tsx:66-69 | The colour parameter rises with the midpoint. |
| StatChart.ColorParameterEnds | src/components/StatReport.tsx:66-69 | The colour parameter is 0 at the range's lower bound and 1 at its upper bound. |
| StatChart.RangeEndColors | src/components/StatReport.tsx:61-71 | A midpoint at the range's lower bound is coloured with the low colour, and one at its upper bound with the high colour. |
| StatChart.ColorOfFinite | src/components/StatReport.tsx:61-71 | A finite midpoint is coloured by `colorLerp` at its place in the statistic's range. |
| StatChart.ColoursRedden | src/components/StatReport.tsx:61-71 | For larger values, red and blue never fall and green never rises. |
| StatChart.BarsReddenToTheRight | src/components/StatReport.tsx:61-71 | On spread data, a bar to the right is at least as red and at most as green as a bar to its left. |
| StatChart.TotalFold | src/components/StatReport.tsx:74-76 | `reduce((accum, next) => accum + next)` on non-empty data. TotalOfReals and NaNPoisonsTotals state its value. |
| StatChart.AverageFold | src/components/StatReport.tsx:78-80 | `reduce((accum, next) => (accum + next) / 2.0)` on non-empty data. AverageOfReals and NaNPoisonsTotals state its value. |
| StatChart.Total | src/components/StatReport.tsx:74-76 | No total exactly for empty data, where `reduce` throws. |
| StatChart.Average | src/components/StatReport.tsx:78-80 | No average exactly for empty data, where `reduce` throws. |
| StatChart.TotalOfReals | src/components/StatReport.tsx:74-76 | On finite data the total is the sum of the values. |
| StatChart.AverageOfReals | src/components/StatReport.tsx:78-80 | On finite data the average is the halving fold, which lies between the minimum and the maximum. |
| StatChart.NaNPoisonsTotals | src/components/StatReport.tsx:74-80 | One NaN point makes both the total and the average NaN. |
| StatChart.ChartedPointsAreCardsWithValue | src/components/StatReport.tsx:33-34 | The points that reach the histogram are exactly the records that have the statistic. |
| DeckStatsApp.FetchAll | src/App.tsx:50-52 | One settled fetch per name, the i-th being `fetchCardData` of the i-th name. All resolve exactly when no response failed. |
| DeckStatsApp.RecordsOf | src/App.tsx:50-54 | The records of a resolved batch, one per fetch, in order. |
| DeckStatsApp.App.constructor | src/App.tsx:42-45 | The deck list starts empty and the card data starts null. |
| DeckStatsApp.App.SetDeckList | src/App.tsx:101 | The text field replaces the deck list and leaves the card data alone. |
| DeckStatsApp.App.OnClickHandler | src/App.tsx:47-55 | Returns the parsed names. When every fetch resolves, the records are stored in name order. Otherwise `Promise.all` rejects and the stored data are unchanged. |
| DeckStatsApp.App.Reports | src/App.tsx:120-138 | No reports exactly while the data are null. Otherwise three reports: Salt, Cost and Popularity, each drawn from its projection of the records. |
| DeckStatsApp.ClickedRecordsFollowTheDeckList | src/App.tsx:47-55 | After a successful click there is one record per parsed name, each extracted from that name's response and named by its slug. Each report has one value per name, finite exactly when the record has the field. |
| DeckStatsApp.EmptyDeckListHasNoTotals | src/App.tsx:120-138 | A deck list with no names resolves to an empty batch. Its reports have no total and no average. |

## Left out

- The HTTP request and JSON decoding (src/repo/edhrecRepo.ts:29-30) are left out. What the network gave back is a parameter: a decoded card or a failure.
- `isFinite` coercion of strings and `null` is left out. A price entry is either a finite number or absent.
- Promise scheduling and concurrency are left out. A batch is modelled once every fetch has settled, in the order of the names.
- These parts of InputSlide are left out: the `loading` and `error` signals, `onCardDataCleared`, the error element's markup, the DOM scroll, and the `finally` block. Only the decision between reporting names and delivering records is modelled.
- These parts of App are left out: the demo `options`/`series` signals (src/App.tsx:30-40), `console.log`, and all JSX layout.
- These are left out: `Chart.register`, chart options other than the bar colour, and the table components.
- IEEE-754 rounding, −0 and overflow to Infinity are left out. Finite numbers are exact reals.
- `Stat.display` and number-to-string conversion are function parameters of Labels and ToCssColor. `toFixed` is not modelled.
- Util.ToCssColor: channels are shown through a parameter, so the channel text itself is not modelled.
- Util.CssColorRoundTrip: it assumes the shown channel strings contain no comma. JavaScript number strings never contain one.
- StatChart.LerpAt: a NaN parameter gives no colour (`None`). The `rgb(NaN,NaN,NaN)` string is not modelled.
- `toLowerCase` is modelled on ASCII letters only. Other characters are kept as they are.
- Histogram.FillBuckets: the write to index 10 grows the JavaScript array to eleven entries, the last one `NaN`. A NaN index writes a non-index property. Both are returned as strays, not as array contents.
- StatChart.Total: the `TypeError` thrown by `reduce` on an empty array is `None`, not an exception. On one-element data `reduce` returns the element itself, so a lone `undefined` stays `undefined`, and `display` then throws in `toFixed`. The model gives NaN there.
- StatChart.Average: the same two cases as StatChart.Total. An empty array gives `None`, and a lone `undefined` gives NaN where JavaScript keeps `undefined`.

The model follows the code as written, also where it evidently departs from its intent:

- The slug keeps periods and diacritics, and no `imageURI` is produced. Neither is stripping modelled, nor image extraction.
- A zero `potential_decks` makes popularity ±Infinity or NaN, not absent.
- The price and the average are halving folds, not arithmetic means.
- The clamp sets the top index to 10, not 9.
- Total and average fold every value, NaN included, not only the finite ones.

## Findings

| source | as written | input that shows it | evidently intended | confidence | as-written member | corrected member |
|---|---|---|---|---|---|---|
| src/components/StatReport.tsx:36-38 | `if (bucketIndex >= bucketCount) bucketIndex = bucketCount`. The maximum is written to index 10, outside the ten buckets. | data `[0, 1]`: the buckets count 1 point, not 2 | clamp to `bucketCount - 1`, so every finite point is counted | high, not executed | Histogram.TwoPointsOneCounted | Histogram.IntendedHistogramCountsEveryPoint |
| src/components/StatReport.tsx:27-39 | When all points are equal, `bucketSize` is 0, so each index is `Math.floor(0 / 0)`, which is NaN. No bucket is raised. | data `[5, 5, 5, 5]`: all buckets stay 0 | all points in bucket 0 | high, not executed | Histogram.EqualPointsAreNotCounted | Histogram.UniformSampleInFirstBucket |
| src/components/StatReport.tsx:23-39 | `min()` is taken over every value, so one `undefined` field (NaN) makes the offset NaN. Every finite point's index is then NaN, and no bucket is raised. | Salt data `[1, undefined, 2]` (one card without salt): all buckets stay 0 | skip missing values when taking `min()`/`max()` and counting | high, not executed | Histogram.NaNDataIsNotCounted | Histogram.IntendedHistogramSkipsMissingValues |
| src/components/StatReport.tsx:78-80 | `reduce((accum, next) => (accum + next) / 2.0)` halves repeatedly. It gives neither the mean nor an order-independent value. The same fold gives the price at src/repo/edhrecRepo.ts:35-37. | `[1, 2, 3]` gives 2.25, not 2. `[3, 2, 1]` gives 1.75. | the arithmetic mean | high, not executed | Folds.HalvingFoldIsNotMean | Folds.MeanPermutation |

The model keeps the code as written in its pipeline: FillBuckets, AveragePrice and Average. The corrected definitions stand beside it, with the intended properties proved about them. These are IntendedHistogram, IntendedHistogramOf and Mean.
