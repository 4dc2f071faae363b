# Verified core of the exchange

This project models the algorithms of the simulated continuous-time exchange whose
correctness is not visible from their code, and proves what they are for.

| files | what is modelled |
|---|---|
| `LiquiditySpline`, `HermiteCubic`, `SplineEvaluation`, `SplineShape`, `StraightLines`, `TangentMeaning` | venue curves: knots from raw samples, the slope-limited tangent pass that rewrites one array in place, the cubic Hermite evaluator |
| `Schedules`, `MarketCurves`, `Clearing`, `ExecutableVolume`, `MatchingView` | from curve to market: sampling, cleaning by price, reading a schedule at any price, the price domain and grid, summing over venues, the clearing point, and the whole view over its own grid |
| `DecimalMath`, `DecimalText`, `Digits` | fixed-point money: wide intermediates, repeated rounding by ten, saturation, comparison, division; its decimal text |
| `ReplayKafka`, `KafkaWire`, `ConfigSnapshot`, `JsonReading`, `SnapshotBuilder`, `DeterminismScanner`, `SnapshotReadBack`, `Texts` | texts that have to be undone: the key/value wire format, the JSON configuration snapshot with a reader by the meanings of RFC 8259, and the substring scanner that reads the snapshot later |
| `HistoricalLoader`, `CompareSessions`, `Ordering` | the replay data pipeline: chunked reads, sort and hash join, the counting preflight, batch-order fingerprints |
| `StepJournal`, `JournalSummary`, `SummaryMeaning`, `QualityMetrics`, `ReplaySessions`, `SessionOutcomes`, `SessionIds`, `Calendar` | replay state: the journal's list and map, truncation and redo, the one-pass summary, percentiles, the session ticker with create, retry and cancel, and the clock-made session ids |
| `RealFacts`, `Wrappers` | facts about products and quotients of reals; small datatypes |

Code that loops over mutable state is a method or a class here, proved equal to a function
of its inputs or of the state before; what the program promises is then proved about that
function, and for each main operation what its result means is stated again from the inputs
alone, with the constants written out. Numbers of the web gateway are exact reals, C++ integers are written out at their
width where the width shows (64-bit amounts, 32-bit counters), and a `char` is one byte.

Some smaller facts stand beside the main ones without a row below: a build reads only the
documents its request names (`OnlyNamedDocumentsMatter`), a retry stored under the id it
retries replaces it (`ReusedIdOverwrites`), and what is asked of a parameter can be had: a root
for the tangent pass (`IdentityRoundsUp`) and for the summary (`RootLikeExists`), and rounding
to thousandths as `toFixed(3)` does it, for every rounding (`ThousandthsMeetAll`);
every list of entries has its columns (`ColumnsExist`) and every range its hours (`HoursExist`);
no values have all-zero statistics (`NoValues`) and a list its sum, value by value (`SumOfTwo`);
a flag is read from three texts (`FlagTexts`), and a last line needs no line break (`LastLine`).

## Where the code falls short of its promise

Each of these is proved as a lemma, together with the exact condition under which the promise holds.

- The determinism scanner looks for the first `"random_seed"` in the text. An id stored as
  `random_seed`, or ending in a quote and that word, hides the real seed
  (`SeedMisread`, `SeedRead`, `SeedReadBackIff`), and so does `tolerance` the real tolerance
  (`KeyRead`, `ToleranceReadBackIff`).
- The market can clear where no bid is left, if and only if some bid schedule has all its
  volume at one price: that schedule is overstated just above its price (`BookIsSafeIff`,
  `NeverOverstatedIff`). It happens on the grid the matching view builds (`SinglePriceBidMarket`).
- Repeated rounding exceeds half a unit exactly when the dropped digits lie above 44..4 and
  below one half (`HalfUnitIff`, `HalfUnitOfAmountIff`, `HalfUlpIsExceeded`); 5/9 is the bound that always holds (`NormalizeError`).
- A session created with a date that cannot be parsed never ends by itself (`CreatedEndsIffDatesParse`).
- Session ids are the UTC date and five clock digits; a create or retry on the same day and a
  multiple of 100 seconds later replaces a finished session (`FinishedSurvivesCreateIff`,
  `FinishedSurvivesRetryIff`, `IdsCollideIff`).
- The preflight's count is at most the number of batches loaded, unless the loader is
  configured with chunks of no rows while some row in range has a batch id (`PreflightWithinLoad`).
- A straight price line tilted by no more than 1e-12 is drawn as an S between its knots (`LineReproducedIff`).

One property of a single function does not show in the program: `findCurveIntersection` never
reports curves that meet at the last price of a grid (`LastGridPriceIsMissed`,
`CrossedIffCurvesMeet`). The matching view's grid ends beyond every bid, so over it a crossing
is reported exactly when the curves meet anywhere (`CrossedIffCurvesMeetAnywhere`).

## Model

| member | source | states |
|---|---|---|
| LiquiditySpline.ExtractQtyPriceKnots | frontend/api/server.js:2688-2717 | the loop keeps usable samples, later prices replacing earlier ones within 1e-9; the knots are non-negative, positive-priced and more than 1e-9 apart |
| LiquiditySpline.SampleEffect | frontend/api/server.js:2694-2714 | each sample by its effect, the 1e-9 written out: unusable ones do nothing, one further on is a new knot, one within 1e-9 corrects the last price, one further back is ignored |
| LiquiditySpline.LaterPriceWins | frontend/api/server.js:2694-2714 | of two usable samples of one quantity the later alone would have done |
| LiquiditySpline.CleanSamplesAreKept | frontend/api/server.js:2694-2714 | knots fed back as samples come out unchanged: extraction repairs nothing that is clean |
| LiquiditySpline.BuildMonotoneTangents | frontend/api/server.js:2719-2760 | the in-place pass over one tangents array computes the specified limited tangents for any list lengths |
| LiquiditySpline.LimitTangents | frontend/api/server.js:2738-2757 | each interval is flattened, left alone or pulled back to the circle of radius 3, in order, on the shared array |
| LiquiditySpline.LimitPairMeets | frontend/api/server.js:2746-2756 | one step puts both tangents of its interval between 0 and three times the slope and enlarges neither, for any rounded-up square root |
| LiquiditySpline.LimitedKeeps | frontend/api/server.js:2738-2757 | the loop invariant: intervals already passed stay within bounds although later steps shrink or zero a shared tangent |
| LiquiditySpline.TangentsInCone | frontend/api/server.js:2719-2760 | after the whole pass every interval's two tangents lie between 0 and three times its slope |
| HermiteCubic.Corners | frontend/api/server.js:2784-2794 | the four corner cubics have non-negative difference quotients on the unit interval |
| HermiteCubic.HermiteRises | frontend/api/server.js:2780-2794 | with tangents between 0 and three times the rise the cubic rises between any two positions |
| SplineEvaluation.EvaluateMonotoneQtySpline | frontend/api/server.js:2762-2795 | the index search and the cubic give the specified value; no knots or a non-finite quantity give NaN |
| SplineEvaluation.PieceMonotone | frontend/api/server.js:2776-2794 | inside an interval the price moves one way, from exactly the left knot's price to the right knot's |
| SplineEvaluation.SplineHitsKnots | frontend/api/server.js:2719-2795 | the curve passes through every knot |
| SplineEvaluation.SplineNeverOvershoots | frontend/api/server.js:2719-2795 | between neighbouring knots the curve stays between their two prices, for any knots |
| SplineEvaluation.SplineInRange | frontend/api/server.js:2719-2795 | every value is positive, and within the end prices of a monotone curve |
| SplineEvaluation.SplineMonotone | frontend/api/server.js:2719-2795 | rising (falling) knots give a curve rising (falling) over all quantities, across knots and beyond both ends |
| SplineEvaluation.CurveFromSamplesMonotone | frontend/api/server.js:2688-2795 | the same from raw samples: monotone kept prices give a monotone positive curve |
| StraightLines.LineTangents | frontend/api/server.js:2719-2760 | on a line every tangent is the line's slope, or zero when the slope counts as flat |
| StraightLines.LineReproducedIff | frontend/api/server.js:2719-2795 | a line is reproduced at every quantity if and only if it is level or steeper than 1e-12 |
| TangentMeaning.LimitPairProjects | frontend/api/server.js:2746-2756 | tangents inside the circle are left alone; with an exact root the others land on it, along the ray to its centre |
| TangentMeaning.CentredTangentExact | frontend/api/server.js:2733-2737 | at an evenly spaced inner knot the unlimited tangent is the derivative of any quadratic through its three knots, or zero where prices turn |
| TangentMeaning.PassMeaning | frontend/api/server.js:2719-2760 | from the inputs alone: the pass starts from the end chords and, between them, the mean of both chords or 0 where they turn; each interval in order then changes its own two tangents only, to 0 on a flat chord, and outside the circle to the point on it |
| TangentMeaning.UnlimitedTangents | frontend/api/server.js:2730-2737 | where no chord is flat and no pair lies outside the circle, the tangents are those start values, end chords included |
| SplineShape.PieceIsCubic | frontend/api/server.js:2780-2794 | each piece is the cubic that leaves and reaches its knots at their prices with the two tangents as slopes |
| Schedules.SanitizeSchedule | frontend/api/server.js:2606-2647 | the result is the upper envelope of the usable samples per rounded price, sorted, with the zero-volume step at the side's near end |
| Schedules.ScheduleUnique | frontend/api/server.js:2606-2647 | the samples determine that schedule: any two results are equal |
| Schedules.ScheduleMeaning | frontend/api/server.js:2606-2647 | every sample that trades is covered at its rounded price, and every point with volume is such a sample |
| Schedules.ScheduleIsEconomic | frontend/api/server.js:2606-2647 | cleaning one-way samples, under any monotone rounding, leaves volumes non-decreasing (ask) or non-increasing (bid) in price and starting from zero |
| Schedules.BuildSpeedScheduleFromSmoothedQtyCurve | frontend/api/server.js:2797-2827 | the pipeline of extraction, tangents, 240 to 480 samples and cleaning yields the schedule of those samples |
| Schedules.SamplesSpanTheCurve | frontend/api/server.js:2806-2824 | the first sample is the first price at no volume, the last is the last price at the whole quantity per hour |
| Schedules.SampleMeaning | frontend/api/server.js:2806-2824 | sample i of n: volume times tau is 3600000 times the quantity at i/(n-1) of the whole, the price is the curve's at that quantity, n is 240 to 480 by the knots, and a tau not finite or below 1 counts as 1 |
| Schedules.VenueScheduleIsEconomic | frontend/api/server.js:2688-2827 | end to end: raw samples whose kept prices run the side's way give an economically monotone schedule |
| MarketCurves.InterpolateScheduleQty | frontend/api/server.js:3662-3680 | the scan reads zero outside the side's end, end volumes beyond the ends, and the first segment reaching the price otherwise |
| MarketCurves.ReadingMeaning | frontend/api/server.js:3662-3680 | what is read at any price in numbers: nothing, an end volume, or the proportional volume between two neighbouring points |
| MarketCurves.InterpolatedMonotone | frontend/api/server.js:3662-3680 | at any two prices, vertical steps included, an ask schedule offers no less and a bid schedule no more at the higher one |
| MarketCurves.TotalMonotone | frontend/api/server.js:3741-3748 | the sum over all venues has the same shape at every pair of prices and is never negative |
| MarketCurves.TotalAdds | frontend/api/server.js:3741-3748 | the total of one schedule is its reading, and of two lists both totals |
| MarketCurves.BuildAggregatedMarketCurve | frontend/api/server.js:3741-3748 | the curve holds, at each grid price, the rounded sum of all schedules there |
| MarketCurves.AggregatedIsEconomic | frontend/api/server.js:3741-3748 | on an increasing grid the rounded sums are again economically monotone |
| MarketCurves.BuildEvaluationPriceGrid | frontend/api/server.js:3713-3739 | the grid is strictly increasing and holds exactly the even steps, the schedules' own prices in the domain, and both ends |
| MarketCurves.EvenPriceMeaning | frontend/api/server.js:3713-3739 | the even part runs from the lower end to the upper in equal steps |
| MarketCurves.BuildMatchingPriceDomain | frontend/api/server.js:3682-3711 | the loops gather all positive prices and pad their range, or fall back |
| MarketCurves.DomainMeaning | frontend/api/server.js:3682-3711 | before rounding, the domain passes all prices by the same distance on both sides, the largest of 1, 8% of the range and 8% of 0.15% of the lowest price; without prices it is 0.2% around the fallback or 68000 to 69000 |
| MarketCurves.GridHoldsAllPrices | frontend/api/server.js:3682-3739 | the domain covers every schedule price and the grid contains each, when prices already have its decimals |
| Clearing.FindCurveIntersection | frontend/api/server.js:3750-3811 | the scan returns the first touch or sign change, else the closest grid point |
| Clearing.CrossingOnBothCurves | frontend/api/server.js:3786-3803 | a reported point lies on the interpolants of supply and demand, with positive volume, short of the last grid price |
| Clearing.ClearingMaximisesVolume | frontend/api/server.js:3750-3811 | at no real price do both sides offer more than the reported volume |
| Clearing.SignChangeIsReported | frontend/api/server.js:3790-3803 | any strict sign change between neighbouring grid prices is reported as a crossing |
| Clearing.CrossedIffStops | frontend/api/server.js:3764-3804 | a crossing is reported if and only if some grid step touches with volume or changes sign |
| Clearing.CrossedIffCurvesMeet | frontend/api/server.js:3750-3811 | a crossing is reported if and only if the interpolants meet with positive volume before the last grid price |
| Clearing.LastGridPriceIsMissed | frontend/api/server.js:3777-3789 | given two curves that trade only at the last grid price, the function reports no crossing |
| Clearing.ClosestIsClosest | frontend/api/server.js:3756-3775 | the fallback is the first grid point of least absolute excess |
| Clearing.UncrossedReport | frontend/api/server.js:3806-3810 | without a crossing the report is that grid price and the mean of both volumes there |
| Clearing.NoCurves | frontend/api/server.js:3750-3754 | without one of the curves the report is 68450, no volume, no crossing |
| Clearing.RoundingComesLast | frontend/api/server.js:3793-3810 | rounding decides neither whether the curves cross nor where |
| Clearing.MarketClears | frontend/api/server.js:3004-3006 | clearing curves summed from economic schedules: at no grid price do both rounded totals exceed the clearing volume |
| ExecutableVolume.ScheduleIsWellShaped | frontend/api/server.js:2606-2647 | cleaned schedules have the shape the next rows need: economic, from zero, one vertical step at the near end |
| ExecutableVolume.ChordBelow | frontend/api/server.js:3662-3680 | between neighbouring prices the straight line between two readings never exceeds the schedule |
| ExecutableVolume.NeverOverstatedIff | frontend/api/server.js:3662-3680 | a schedule is never overstated between its prices if and only if it is not a bid with all volume at one price |
| ExecutableVolume.AggregateNeverOverstates | frontend/api/server.js:3741-3748 | the summed curve shows at most what the schedules offer, plus what rounding a sum can add, at every price of the grid's range, and the rounded sum at grid prices |
| ExecutableVolume.ClearingIsExecutable | frontend/api/server.js:3741-3811 | at the clearing price both sides offer at least the clearing volume, up to the rounding of the sums |
| MatchingView.ScheduleIsGridReady | frontend/api/server.js:2606-2647 | a cleaned schedule's prices are positive and unchanged by rounding again |
| MatchingView.GridEndsBeyond | frontend/api/server.js:3682-3739 | the grid built from the schedules' own domain ends above every price of every schedule |
| MatchingView.CrossedIffCurvesMeetAnywhere | frontend/api/server.js:2977-3012 | over its own grid the view reports a crossing if and only if the summed curves meet with positive volume at any price |
| MatchingView.MatchingIsExecutable | frontend/api/server.js:2977-3012 | from cleaned one-way samples to the clearing point over the view's own domain and grid, with sums rounded: without a single-price bid, both sides offer what clears up to that rounding |
| MatchingView.BidChordAbove | frontend/api/server.js:3662-3680 | short of its next price a bid is never above its straight line, and strictly below it just above a single price |
| MatchingView.SinglePriceBidFails | frontend/api/server.js:3741-3811 | beside any book with a single-price bid there are a sound ask and a grid of all prices that clear more than is bid |
| MatchingView.BookIsSafeIff | frontend/api/server.js:3741-3811 | a book of bids clears within its offer beside every sound ask list on every grid of all prices if and only if it has no single-price bid |
| MatchingView.SinglePriceBidMarket | frontend/api/server.js:2977-3012 | on the view's own grid a bid at one price beside an ask rising from it always clears where nothing is bid |
| DecimalMath.RoundDiv10Nearest | cpp/common/src/decimal.cpp:24-29 | the quotient by ten is nearest, exact on multiples of ten and symmetric in sign |
| DecimalMath.NormalizeWide | cpp/common/src/decimal.cpp:31-46 | the loop computes the recursive normalisation for every amount and scale |
| DecimalMath.NormalizeOrdered | cpp/common/src/decimal.cpp:31-46 | normalisation keeps order even when the two sides stop at different scales or saturate |
| DecimalMath.NormalizeLift | cpp/common/src/decimal.cpp:31-46 | appending zero digits to the input does not change the value of the result |
| DecimalMath.CmpIsOrder | cpp/common/src/decimal.cpp:104-111 | comparison is the order of the values at any common scale |
| DecimalMath.CmpTransitive | cpp/common/src/decimal.cpp:104-111 | comparison is transitive over three scales, equal only through equals |
| DecimalMath.AddSubKeepOrder | cpp/common/src/decimal.cpp:90-111 | adding or subtracting the same amount keeps order for all mixed scales, saturation included |
| DecimalMath.EqualOperandsEqualSums | cpp/common/src/decimal.cpp:90-111 | operands equal in value give results equal in value |
| DecimalMath.MinMaxPick | cpp/common/src/decimal.cpp:140-146 | minimum and maximum bound both operands and together hold both values |
| DecimalMath.SaturationThreshold | cpp/common/src/decimal.cpp:31-46 | exactly which inputs saturate, and to which end of the range, at scale 0 |
| DecimalMath.ReachClosedForm | cpp/common/src/decimal.cpp:24-46 | the saturation threshold in closed form |
| DecimalMath.NormalizeError | cpp/common/src/decimal.cpp:24-46 | unless it saturates the result is within 5/9 of one unit at its scale |
| DecimalMath.AddSubMulRound | cpp/common/src/decimal.cpp:83-102 | sum, difference and product are exact when they fit, else within 5/9 of a unit or saturated with the right sign |
| DecimalMath.HalfUnitIff | cpp/common/src/decimal.cpp:24-46 | the result is within half a unit if and only if the dropped digits stay below 44..45 or are at least one half, for both signs |
| DecimalMath.HalfUnitOfAmountIff | cpp/common/src/decimal.cpp:24-46 | the same from the amount alone: the digits dropped are the fewest that do not saturate |
| DecimalMath.HalfUlpIsExceeded | cpp/common/src/decimal.cpp:24-46 | an amount that two roundings move by more than half a unit |
| DecimalMath.SubUndoesAdd | cpp/common/src/decimal.cpp:90-102 | subtracting what was added gives the first value back whenever the aligned sum fits |
| DecimalMath.Divide | cpp/common/src/decimal.cpp:113-138 | the division's steps give the specified quotient; a zero divisor is the error case |
| DecimalMath.RoundQuotientNearest | cpp/common/src/decimal.cpp:128-136 | the quotient is nearest for every combination of signs |
| DecimalMath.DivError | cpp/common/src/decimal.cpp:113-138 | despite its extra rounding the result is within 5/9 of a unit of the exact quotient, unless that is half a unit beyond the last quotient that rounds into range; then, and only then, it saturates to the end of the right sign |
| DecimalMath.DivUndoesMul | cpp/common/src/decimal.cpp:83-138 | dividing a product that fits by one factor returns the other digit for digit |
| DecimalMath.IntermediatesFitInt128 | cpp/common/src/decimal.cpp:48-138 | every intermediate of every operation fits 128 bits while scales differ by at most 19 |
| DecimalMath.AlignmentFitsIff | cpp/common/src/decimal.cpp:48-54 | aligning every amount by k digits stays inside 128 bits if and only if k is at most 19 |
| DecimalText.DecimalToString | frontend/api/server.js:836-848 | the padding loop and the trimming print the specified text; a missing amount prints zero |
| DecimalText.PrintMeans | frontend/api/server.js:836-848 | the text is decimal notation of the amount: a sign, digits without superfluous zeros, a point and the rest |
| DecimalText.ParsePrinted | frontend/api/server.js:836-868 | parsing a printed decimal gives the same rational in least scale with no trailing zero digit |
| DecimalText.CanonicalSurvives | frontend/api/server.js:836-868 | a decimal survives the round trip unchanged if and only if it is already canonical |
| DecimalText.PrintParsedAgain | frontend/api/server.js:836-868 | printing the parsed result gives the same text again |
| ReplayKafka.EscapeField | cpp/common/src/replay_kafka.cpp:11-24 | the loop emits the specified escaped text |
| ReplayKafka.UnescapeField | cpp/common/src/replay_kafka.cpp:26-44 | the skipping loop emits the specified unescaped text for every input, malformed pairs included |
| ReplayKafka.UnescapeEscape | cpp/common/src/replay_kafka.cpp:11-44 | unescaping undoes escaping for every text |
| KafkaWire.EscapeTable | cpp/common/src/replay_kafka.cpp:11-24 | the four escaped characters and their texts, all others unchanged |
| KafkaWire.EscapeAppend | cpp/common/src/replay_kafka.cpp:11-24 | escaping goes piece by piece |
| KafkaWire.MalformedKept | cpp/common/src/replay_kafka.cpp:26-44 | a backslash before any other character, or at the end, is kept |
| ReplayKafka.EscapedIsOneLine | cpp/common/src/replay_kafka.cpp:11-24 | an escaped value never breaks a line |
| ReplayKafka.ParseKeyValuePayload | cpp/common/src/replay_kafka.cpp:82-102 | the line loop performs the specified map updates for every payload |
| KafkaWire.LineMeans | cpp/common/src/replay_kafka.cpp:87-99 | a line is split at its first equals sign that does not follow a backslash; without one it says nothing |
| KafkaWire.LineByLine | cpp/common/src/replay_kafka.cpp:82-102 | lines are read from the first to the last |
| KafkaWire.IntegersRead | cpp/common/src/replay_kafka.cpp:104-118 | printed integers are read back within 64 and 32 bits and are zero beyond |
| ReplayKafka.ParseRendered | cpp/common/src/replay_kafka.cpp:46-102 | parsing rendered lines performs exactly the assignments they list |
| ReplayKafka.LookupRendered | cpp/common/src/replay_kafka.cpp:46-102 | each written field is found under its key with its own value |
| ReplayKafka.CommandRoundTrip | cpp/common/src/replay_kafka.cpp:179-208 | every command parses back to itself, for all string contents and 64-bit times |
| KafkaWire.CommandWire | cpp/common/src/replay_kafka.cpp:179-191 | the wire text of a command, line by line |
| KafkaWire.BareCommand | cpp/common/src/replay_kafka.cpp:193-208 | fields a command lacks read as empty, its time as zero |
| ReplayKafka.ResultRoundTrip | cpp/common/src/replay_kafka.cpp:210-298 | every result parses back to itself, floating-point fields taken as printed tokens |
| KafkaWire.ResultWire | cpp/common/src/replay_kafka.cpp:210-243 | the wire text of a result, all 27 lines |
| ReplayKafka.KindsNeverConfused | cpp/common/src/replay_kafka.cpp:179-298 | neither parser accepts the other kind of message |
| ConfigSnapshot.JsonEscape | cpp/backtest/src/app/replay_config_snapshot.cpp:9-32 | the loop emits the specified escaped text |
| ConfigSnapshot.EscapePrefixFree | cpp/backtest/src/app/replay_config_snapshot.cpp:9-32 | the expansions of characters form a prefix code |
| ConfigSnapshot.LiteralOnce | cpp/backtest/src/app/replay_config_snapshot.cpp:9-49 | a closing quote ends a literal at one place only: the text and what follows are determined |
| ConfigSnapshot.SerializeSnapshot | cpp/backtest/src/app/replay_config_snapshot.cpp:40-66 | the document is the fixed layout of keys, literals and gaps, which reads as the row `JsonReading.SnapshotDecoded` says |
| ConfigSnapshot.SnapshotTextInjective | cpp/backtest/src/app/replay_config_snapshot.cpp:9-66 | equal documents mean equal ids, versions, flags, bodies, seed, tolerance token and rules |
| JsonReading.EscapeRead | cpp/backtest/src/app/replay_config_snapshot.cpp:9-32 | each expansion is what JSON reads as that character |
| JsonReading.ValueRead | cpp/backtest/src/app/replay_config_snapshot.cpp:40-66 | every value of strings, numbers, booleans and objects is read back from its text, and what followed it |
| JsonReading.SnapshotDecoded | cpp/backtest/src/app/replay_config_snapshot.cpp:40-66 | the document is one JSON object that says, each under its key, the id, version, flag and body of every section and the schema version, seed, tolerance and rules |
| SnapshotBuilder.ResolveSection | cpp/backtest/src/app/replay_config_snapshot.cpp:68-100 | the early returns give the override, the stored document, or the message for what is missing |
| SnapshotBuilder.Build | cpp/backtest/src/app/replay_config_snapshot.cpp:109-150 | the first section that cannot be resolved refuses the build; otherwise defaults are filled in and the document written |
| SnapshotBuilder.BuiltSaysRequest | cpp/backtest/src/app/replay_config_snapshot.cpp:68-150 | read as JSON, the built document says what was asked: override or stored document per section, seed 0, tolerance 0 and the default rules where nothing was given |
| SnapshotBuilder.RefusalMeaning | cpp/backtest/src/app/replay_config_snapshot.cpp:68-135 | a build is refused if and only if some section has a reason, with the message of the first |
| SnapshotBuilder.SameTextSameConfiguration | cpp/backtest/src/app/replay_config_snapshot.cpp:51-150 | builds with equal documents used equal bodies, overrides, seed and rules, whatever the repositories |
| SnapshotBuilder.BuiltSeedReadBack | cpp/backtest/src/app/check_replay_determinism_uc.cpp:51-69 | the seed asked for at the build is the seed the scanner reads, given clean ids and bodies |
| DeterminismScanner.ExtractJsonInt | cpp/backtest/src/app/check_replay_determinism_uc.cpp:51-69 | the position loops read the specified value, or nothing, for every text and key |
| DeterminismScanner.HitIsEscapedHit | cpp/backtest/src/app/check_replay_determinism_uc.cpp:53-54 | a text that is the key or ends in quote and key still does after escaping |
| DeterminismScanner.EscapedHitIsHit | cpp/backtest/src/app/check_replay_determinism_uc.cpp:53-54 | and no other text looks like that after escaping |
| DeterminismScanner.MatchEndsAtClose | cpp/backtest/src/app/check_replay_determinism_uc.cpp:53-54 | inside a literal the needle can match only at its closing quote |
| DeterminismScanner.ScannerStopsAtHit | cpp/backtest/src/app/check_replay_determinism_uc.cpp:53-57 | the character search agrees with a search over whole literals |
| SnapshotReadBack.KeyRead | cpp/backtest/src/app/check_replay_determinism_uc.cpp:51-89 | what the scanner returns for the seed or the tolerance on every snapshot, for any number parser that rejects a brace |
| SnapshotReadBack.SeedRead | cpp/backtest/src/app/check_replay_determinism_uc.cpp:51-69 | what the scanner returns for the seed on every snapshot, as a number |
| SnapshotReadBack.SeedReadBack | cpp/backtest/src/app/check_replay_determinism_uc.cpp:51-69 | with clean ids and bodies the seed written is the seed read |
| SnapshotReadBack.SeedReadBackIff | cpp/backtest/src/app/check_replay_determinism_uc.cpp:51-69 | for every snapshot: the seed is read back if and only if the first section that is not clean has an id hit and the seed as its version, or only the last body is hit, or nothing is |
| SnapshotReadBack.SeedMisread | cpp/backtest/src/app/check_replay_determinism_uc.cpp:51-69 | a configuration id equal to the key makes the scanner return that section's version |
| SnapshotReadBack.VersionReadBack | cpp/backtest/src/app/check_replay_determinism_uc.cpp:51-69 | the schema version is read back from every snapshot |
| SnapshotReadBack.ToleranceReadBack | cpp/backtest/src/app/check_replay_determinism_uc.cpp:71-89 | with clean ids and bodies the tolerance is parsed from the text that was written |
| SnapshotReadBack.ToleranceReadBackIff | cpp/backtest/src/app/check_replay_determinism_uc.cpp:71-89 | for every snapshot whose tolerance parses: exactly when that value is what is read |
| HistoricalLoader.Loader.LoadAllChunked | cpp/backtest/src/app/historical_batch_loader_uc.cpp:13-33 | the offset loop ends with every row in range, after n div chunk_size + 1 reads |
| HistoricalLoader.Loader.Run | cpp/backtest/src/app/historical_batch_loader_uc.cpp:35-122 | the result is the join of the three streams under some correct, not necessarily stable, sort, in the order and with the rows the next rows state; all four counters and the last id account for it |
| HistoricalLoader.LoadedInTimeOrder | cpp/backtest/src/app/historical_batch_loader_uc.cpp:57-62 | the batches come in time order, and at one time in the byte order of their ids |
| HistoricalLoader.LoadedRows | cpp/backtest/src/app/historical_batch_loader_uc.cpp:35-56 | they are exactly the stored rows in the range, each as often as stored |
| HistoricalLoader.LoadedFills | cpp/backtest/src/app/historical_batch_loader_uc.cpp:77-110 | a batch holds exactly the stored fills of its id in the range |
| HistoricalLoader.LoadedSnapshots | cpp/backtest/src/app/historical_batch_loader_uc.cpp:77-110 | and exactly the stored snapshots of its time |
| HistoricalLoader.LoadedFillOrder | cpp/backtest/src/app/historical_batch_loader_uc.cpp:63-69 | its fills come in time order, then in the byte order of their order ids |
| HistoricalLoader.LoadedSnapshotOrder | cpp/backtest/src/app/historical_batch_loader_uc.cpp:70-75 | its snapshots come in the byte order of venue, then symbol |
| HistoricalLoader.JoinRows | cpp/backtest/src/app/historical_batch_loader_uc.cpp:77-120 | the hash-map join equals the join by filtering, with its totals |
| HistoricalLoader.ChunkSizeIrrelevant | cpp/backtest/src/app/historical_batch_loader_uc.cpp:13-122 | every positive chunk size allows the same results |
| HistoricalLoader.LoadsAgree | cpp/backtest/src/app/historical_batch_loader_uc.cpp:35-122 | any two loads of the same rows, whatever the storage order and however ties are sorted, give the same batch times and ids in order, the same fills and snapshots per batch, and the same counters |
| HistoricalLoader.StorageOrderIrrelevant | cpp/backtest/src/app/historical_batch_loader_uc.cpp:35-122 | with distinct sort keys the results are equal, whatever the storage order and the sort |
| HistoricalLoader.BatchKeysFixed | cpp/backtest/src/app/historical_batch_loader_uc.cpp:57-62 | even with ties any correct sort gives the same times and ids in the same order |
| HistoricalLoader.PreflightHistoricalBatches | cpp/backtest/src/app/create_replay_session_uc.cpp:50-82 | the chunk loop with its early exit returns the number of distinct non-empty ids in range, capped at the 32-bit maximum |
| HistoricalLoader.PreflightMeaning | cpp/backtest/src/app/create_replay_session_uc.cpp:50-82 | the count is the number of different non-empty ids in the range, up to 2147483647 |
| HistoricalLoader.PreflightWithinLoad | cpp/backtest/src/app/create_replay_session_uc.cpp:50-82 | the count is at most the number of batches of every load if and only if chunks hold rows or no row in range has a batch id |
| CompareSessions.ExtractBatchOrder | cpp/backtest/src/app/compare_replay_sessions_uc.cpp:86-99 | sorting and collecting gives the batch-order fingerprint |
| CompareSessions.BatchOrderMeaning | cpp/backtest/src/app/compare_replay_sessions_uc.cpp:86-99 | the fingerprint lists the ids of all rows by ascending sequence number, ties in byte order |
| CompareSessions.OrderIsFingerprint | cpp/backtest/src/app/compare_replay_sessions_uc.cpp:86-99 | any correct sort of any arrangement of the rows gives the same fingerprint |
| CompareSessions.SequenceNumbersIgnored | cpp/backtest/src/app/compare_replay_sessions_uc.cpp:86-99 | renumbering any log by any strictly increasing map leaves its fingerprint alone |
| CompareSessions.CompatibilityIsEquivalence | cpp/backtest/src/app/compare_replay_sessions_uc.cpp:161-192 | compatible is reflexive, symmetric and transitive, and no row order changes a verdict |
| CompareSessions.CompareMeaning | cpp/backtest/src/app/compare_replay_sessions_uc.cpp:161-192 | each verdict by what it says of the two sessions, the first difference naming it |
| CompareSessions.DeltasChain | cpp/backtest/src/app/compare_replay_sessions_uc.cpp:32-39 | deltas are antisymmetric and add up along a chain |
| StepJournal.Journal.Contains | cpp/backtest/src/app/replay_step_journal.cpp:17-19 | true exactly for the batches of the ordered content |
| StepJournal.Journal.NextBatchSeq | cpp/backtest/src/app/replay_step_journal.cpp:21-23 | the position the next unseen batch will take, modulo 32 bits |
| StepJournal.Journal.Find | cpp/backtest/src/app/replay_step_journal.cpp:48-53 | the entry of a batch, found exactly when the ordered content has one |
| StepJournal.Journal.Upsert | cpp/backtest/src/app/replay_step_journal.cpp:25-35 | an unseen batch is appended, a known one replaced in place, an empty id ignored; list and map stay in step |
| StepJournal.Journal.TruncateFromBatch | cpp/backtest/src/app/replay_step_journal.cpp:37-46 | everything from the batch on is dropped from both containers, or nothing when it is unknown |
| StepJournal.Journal.OrderedEntries | cpp/backtest/src/app/replay_step_journal.cpp:55-63 | the loop returns the journal's content in order |
| StepJournal.Journal.BuildSummary | cpp/backtest/src/app/replay_step_journal.cpp:70-157 | one pass gives a summary whose every field is right about the entries' columns: the totals and means, the largest fall of the running result, the deviation and Sharpe ratio, shortfall under both rules, fill rate, average price and solve time |
| SummaryMeaning.SummariesMean | cpp/backtest/src/app/replay_step_journal.cpp:70-157 | the same of the specified summary, for every list of entries and any square root |
| SummaryMeaning.LargestFall | cpp/backtest/src/app/replay_step_journal.cpp:119-121 | the drawdown is at least every fall of the running result from an earlier to a later point, and equals one |
| JournalSummary.SharpeMeaning | cpp/backtest/src/app/replay_step_journal.cpp:137-146 | the deviation is zero exactly when every batch earned the average, and otherwise the Sharpe ratio has the average's sign |
| JournalSummary.TotalsMeaning | cpp/backtest/src/app/replay_step_journal.cpp:82-122 | every running accumulator is the count, sum or maximum it stands for |
| StepJournal.TruncateRedo | cpp/backtest/src/app/replay_step_journal.cpp:25-46 | truncating and playing the dropped batches again restores every position, and with the old results the whole journal |
| StepJournal.RunKeepsPositions | cpp/backtest/src/app/replay_step_journal.cpp:25-46 | over every run one entry per batch, and no upsert moves a batch |
| JournalSummary.DrawdownIsMaximum | cpp/backtest/src/app/replay_step_journal.cpp:119-121 | one pass finds the maximum of C_i - C_j over all i at most j |
| JournalSummary.EveryBatchCounted | cpp/backtest/src/app/replay_step_journal.cpp:82-122 | processed and failed batches together are the journal's size |
| JournalSummary.DeviationFromSums | cpp/backtest/src/app/replay_step_journal.cpp:137-142 | the second pass's squared deviation equals its expression in the plain sums |
| JournalSummary.DeviationSign | cpp/backtest/src/app/replay_step_journal.cpp:137-142 | the deviation is never negative, and zero only when all results equal the centre |
| QualityMetrics.ComputeStats | cpp/backtest/src/app/quality_metrics.cpp:8-24 | summing, sorting and interpolating gives the specified statistics |
| QualityMetrics.StatsMeaning | cpp/backtest/src/app/quality_metrics.cpp:8-38 | in numbers: the ranks read at 0.5, 0.95 and 0.99 of the way with proportional parts between them, and the mean times the count is the sum |
| QualityMetrics.PercentileMonotone | cpp/backtest/src/app/quality_metrics.cpp:26-38 | the percentile rises with p on the whole unit interval and stays between minimum and maximum |
| QualityMetrics.PercentileAtRank | cpp/backtest/src/app/quality_metrics.cpp:26-38 | at p = k/(n-1) it is the k-th smallest value |
| QualityMetrics.StatsOfMultiset | cpp/backtest/src/app/quality_metrics.cpp:8-24 | the statistics depend only on the multiset of values |
| QualityMetrics.StatsOrdered | cpp/backtest/src/app/quality_metrics.cpp:8-24 | minimum, median, p95, p99 and maximum come in that order and enclose the mean |
| ReplaySessions.SessionStore.TickAll | frontend/api/server.js:659-711 | the loop over the Map advances every session by exactly one tick |
| ReplaySessions.Advance | frontend/api/server.js:664-687 | one session's tick, batch by batch, with failure, completion and cancellation decided in order |
| ReplaySessions.SessionStore.CreateSession | frontend/api/server.js:1325-1383 | a rejected request changes nothing and says why; an accepted one stores one pending session |
| ReplaySessions.SessionStore.RetrySession | frontend/api/server.js:1410-1440 | only failed or cancelled sessions are cloned, from progress 0, the source staying unless its id is reused |
| ReplaySessions.SessionStore.CancelSession | frontend/api/server.js:1443-1468 | only pending or running sessions are cancelled, and nothing else changes |
| SessionOutcomes.RefusalsMean | frontend/api/server.js:1325-1450 | every refusal with its reason and order: guests, incomplete requests, unknown sessions, wrong statuses; a refused request changes nothing |
| SessionOutcomes.StoredMean | frontend/api/server.js:1325-1468 | what an accepted create, retry or cancel stores, and that no other session changes |
| ReplaySessions.BatchesPerHour | frontend/api/server.js:1342-1343 | a range of whole hours has four batches an hour and at least 24 |
| SessionOutcomes.RangeMeans | frontend/api/server.js:1342-1343 | any range has four batches for each hour, the range rounded to the nearest hour, halves up, from six hours up |
| ReplaySessions.RunSound | frontend/api/server.js:659-711 | under any interleaving progress never passes the total and status, error and partial flags agree |
| ReplaySessions.FinalKeptIffIdNotReused | frontend/api/server.js:1410-1468 | an event leaves a finished session unchanged if and only if it does not store under its id |
| ReplaySessions.FinalNeverChanges | frontend/api/server.js:659-711 | over any run a finished session whose id is not reused never changes |
| Calendar.DateIsValid | frontend/api/server.js:1350 | every day number has a valid calendar date with that number, of four-digit year up to 9999 |
| Calendar.DaysAreCalendarDays | frontend/api/server.js:1350 | day 0 is 1970-01-01 and each day is followed by the next day of the Gregorian calendar |
| Calendar.DateTextReads | frontend/api/server.js:1350 | the eight digits are year, month and day |
| Calendar.DaysWrittenOnce | frontend/api/server.js:1350 | up to the year 9999 two days are written with the same eight digits if and only if they are the same |
| SessionIds.IdsCollideIff | frontend/api/server.js:1350 | two ids are equal if and only if their dates are the same day and their clocks are equal or, from ten seconds after the epoch on, equal in the last five digits |
| SessionIds.IdReads | frontend/api/server.js:1350 | what an id reads as: rpl, the date, the last five digits of the clock |
| SessionIds.FinishedSurvivesCreateIff | frontend/api/server.js:1325-1383 | a finished session survives an accepted create unchanged if and only if the two clock readings do not collide |
| SessionIds.FinishedSurvivesRetryIff | frontend/api/server.js:1410-1440 | the same for a retry, which reads the clock twice |
| ReplaySessions.FinalWithinTwentyFourTicks | frontend/api/server.js:659-711 | a session with a numeric total is final once any run contains 24 ticks |
| ReplaySessions.TwentyFourTicksNeeded | frontend/api/server.js:670-675 | 23 ticks do not suffice for 24 batches |
| ReplaySessions.CreatedEndsIffDatesParse | frontend/api/server.js:1342-1343 | left alone, a created session ends if and only if both dates parse |
| ReplaySessions.ScenarioDecidesFate | frontend/api/server.js:677-687 | uncancelled, a session ends as its scenario says, at full progress or past 52 per cent |
| SessionOutcomes.ProgressIsLinear | frontend/api/server.js:664-687 | after n ticks a session has replayed n times the least stride of which 24 make up the total, and has stopped exactly when that reaches the total or, failing, 52 per cent of it |
| SessionOutcomes.RunIsTicks | frontend/api/server.js:659-711 | a session nobody cancels or replaces sees of a run only its ticks |
| SessionOutcomes.CreatedFate | frontend/api/server.js:1325-1383 | in any run with 24 ticks an accepted request fails, cancels, completes or never ends according to its risk limit, instrument and dates |
| ReplaySessions.RetrySucceedsUnlessSolverFails | frontend/api/server.js:1410-1440 | a retried session completes if and only if its total is a number and its scenario was not a solver error |

## Left out

- Service entry points, gRPC, Kafka, PostgreSQL, ClickHouse, HTTP, WebSocket, the pages and the request overrides near the end of `server.js`: input, output and wiring.
- The matching solver, risk, ledger and the replay orchestrator: not part of this model.
- IEEE rounding, NaN and infinities inside the curve arithmetic, and `parseInt` beyond 2^53: reals and unbounded integers stand for them. The failure point at 52 per cent is the exact floor.
- `toFixed`: any monotone rounding that keeps signs, a parameter of the schedule and clearing members. `Math.sqrt`: any function that never rounds down above 9, a parameter of the tangent members.
- The schedule builders used when a venue sends other curves than quantities and prices, and the schedules of internal orders: the grid, the aggregate and the clearing are proved for every list of schedules of the shape they produce.
- SessionIds.IdsCollideIff: is about clocks from 1970 to 9999, whose ISO dates have years of four digits.
- The last branch of `buildSpeedScheduleFromSmoothedQtyCurve`, a last quantity that is not positive: knots more than 1e-9 apart cannot end there.
- ReplayKafka.ResultRoundTrip: does not cover the loss of digits when the nine floating-point fields are printed; they are the texts they were printed to.
- SnapshotReadBack.ToleranceReadBack: takes the floating-point number parser as a parameter; how a tolerance is printed is not modelled.
- QualityMetrics.ComputeStats: stops at the mean and percentiles; `ComputeStaleRate` and `BuildReport` are not modelled.
- StepJournal.Journal.BuildSummary: takes the library's square root as a parameter.
- JsonReading.ValueRead: is about the values a snapshot holds; arrays, null, white space between tokens and code points past 127 are not read.
- HistoricalLoader.Loader.Run: is weaker than one fixed list where sort keys tie, because the library's sort promises no order there; counters are unbounded, the sink callback and the mutex around the counters are not modelled, and rows carry their further columns as one text.
- HistoricalLoader.PreflightHistoricalBatches: the loader serves slices of a fixed row list; a store that changes while it is read is not modelled.
- CompareSessions: how instruments are read out of a strategy document is a parameter; the not-found errors before the comparison are left out.
- SnapshotBuilder.Build: on refusal only the message is modelled, not the partly filled snapshot beside it.
- ReplaySessions.SessionStore.TickAll: sessions are values in the map, so two references to one session object are not modelled; log lines, summaries and broadcasts derived from a session are left out, as are names and timestamps.
- The field comparisons of the determinism check, role checks, metrics rendering and the Python tools: not part of this model.
