# WattTime grid-emissions plugin: time-window aggregation

This project models the `execute` plugin of the WattTime grid-emissions
integration (`src/lib/watt-time/index.ts`) and proves properties of the model.
It takes a batch of input records, each with a `timestamp`, a `duration` in
seconds and an optional `geolocation` string `"lat,-lon"`, and runs these steps:

1. `validateInputs` checks every record that has a `geolocation`. The value must
   match `^\d{1,3}\.\d+,-\d{1,3}\.\d+$`, and both halves must parse to numbers.
2. `calculateStartDurationTime` folds the batch into one window, from the
   earliest `timestamp` to the latest `timestamp + duration`. The fold starts
   from the sentinels 9999-12-31 and 1970-01-01. A window longer than 32 days
   (2,764,800 s) is rejected.
3. `getWattTimeData` locates the query by the first record's `geolocation`.
   It fetches the marginal-emissions series once for the whole window.
4. For each record in order, `getWattTimeDataForDuration` keeps the samples in
   its half-open window `[timestamp, timestamp + duration)`. Each kept reading
   (lbs/MWh upstream) is divided by 0.45359237, the source's `kgMWh`, which is
   kilograms per pound. The record's
   `grid/carbon-intensity` is set in place to the mean of those readings. An
   empty window stops the batch with an error naming the record's index.

Files and modules:

- `wrappers.dfy` (`Wrappers`): `Option`, `Result` and `Outcome`.
- `records.dfy` (`Records`): the record `Input`, one upstream `Sample`, and the
  plugin's `Error`s. Timestamps are whole seconds since 1970-01-01T00:00:00Z.
- `interval_merger.dfy` (`IntervalMerger`): the pure fold of
  `calculateStartDurationTime`.
- `geolocation.dfy` (`Geolocation`): the pattern, `split`, `parseFloat`,
  `parseLocation` and the per-record check of `validateInputs`, all as pure
  functions.
- `partition.dfy` (`WindowPartition`): the window test and the selection, plus
  the method `DataForDuration`, which is the push loop of
  `getWattTimeDataForDuration`.
- `watt_time.dfy` (`WattTime`): the batch as an `array<Input>` updated in place.
  It holds the methods `ParseLocation`, `ValidateInputs`, `GetWattTimeData`,
  `Annotate` and `Execute`. Each is proved against the pure model `Run` of one
  `execute` call. `Run` gives the result, the query sent and the intensities
  written before the call stopped.
- `run_properties.dfy` (`RunProperties`): what `execute` promises, proved on
  `Run`.

The WattTime API client is a parameter `source` from a query to a series or an
error message. `execute` calls it at most once, and `Run` records the query it
sent.

The model follows the code, including four points that are easy to miss:

- The pattern requires a minus sign before the longitude. `"45.0,122.0"` is
  rejected (`Geolocation.ExampleNoMinusSign`). The longitude is therefore never
  positive.
- Every reading is divided by 0.45359237 (index.ts:78,86). That number is
  kilograms per pound, so the division does not convert lbs/MWh to kg/MWh (a
  conversion would multiply). The model keeps the division as written
  (`WindowPartition.KilogramsPerPound`).
- The NaN check in `validateInputs` cannot fire after the pattern matched:
  every matching string parses to two numbers
  (`Geolocation.MatchedGeolocationParses`). A failed validation is always
  the pattern's error.
- An empty batch fails with the schema's error (`InvalidGeolocation`). The
  merged window of an empty batch has a negative span and passes the 32-day
  check. Parsing the missing first record's `geolocation` then fails
  (`RunProperties.RunEmptyBatch`).

## Model

| member | source | states |
|---|---|---|
| IntervalMerger.Step | src/lib/watt-time/index.ts:177-188 | one fold step: the strict `isBefore`/`isAfter` comparisons keep the lesser start and the greater end, so ties are unobservable |
| IntervalMerger.MinTimestamp | src/lib/watt-time/index.ts:176-191 | reference definition: a lower bound of every `timestamp` that is attained by some record |
| IntervalMerger.MaxEnd | src/lib/watt-time/index.ts:176-191 | reference definition: an upper bound of every `timestamp + duration` that is attained by some record |
| IntervalMerger.CalculateStartDuration | src/lib/watt-time/index.ts:170-205 | fails exactly when the merged span exceeds 2,764,800 s, with `SpanTooLong` carrying the span; otherwise start is the merged start and start + fetchDuration the merged end |
| IntervalMerger.FoldIsMinMax | src/lib/watt-time/index.ts:176-191 | the fold from any accumulator yields the min of its start and every timestamp, and the max of its end and every end |
| IntervalMerger.MergedWindowIsMinMax | src/lib/watt-time/index.ts:176-191 | for a non-empty batch the merged window is [min(sentinel start, least timestamp), max(sentinel end, greatest end)] |
| IntervalMerger.MergedWindowWithinSentinels | src/lib/watt-time/index.ts:176-191 | inside the sentinels the merged window is exactly [least timestamp, greatest end] |
| IntervalMerger.MergedWindowCovers | src/lib/watt-time/index.ts:176-191 | every record's window lies inside the merged window |
| IntervalMerger.MergedWindowPermutation | src/lib/watt-time/index.ts:176-191 | the merged window does not depend on the order of the records |
| IntervalMerger.MinAndMaxAgree | src/lib/watt-time/index.ts:176-191 | batches with the same records have the same least timestamp and greatest end |
| Geolocation.MatchesFromIff | src/lib/watt-time/index.ts:134 | the scan for a matching comma succeeds exactly when some comma position from there on matches |
| Geolocation.MatchesGeolocationIff | src/lib/watt-time/index.ts:134 | a string matches the pattern exactly when one comma position splits it into `\d{1,3}\.\d+` and `-\d{1,3}\.\d+` |
| Geolocation.MatchWitness | src/lib/watt-time/index.ts:134 | every match has its comma and its two dots at positions the pattern allows |
| Geolocation.MatchOfWitness | src/lib/watt-time/index.ts:134 | characters placed as the pattern says make a match |
| Geolocation.IndexOf | src/lib/watt-time/index.ts:122 | the position of the first separator: it holds the separator and none occurs before it |
| Geolocation.Split | src/lib/watt-time/index.ts:122 | `split` yields at least one part and no part contains the separator |
| Geolocation.JoinSplit | src/lib/watt-time/index.ts:122 | joining the parts of a split with the separator gives back the string |
| Geolocation.SplitAtOnlySeparator | src/lib/watt-time/index.ts:122 | a string with exactly one separator splits into its two sides |
| Geolocation.DigitRun | src/lib/watt-time/index.ts:124 | the longest prefix of digits: all digits, and the next character is not one |
| Geolocation.FractionValue | src/lib/watt-time/index.ts:124 | the digits after a decimal point denote a value in [0, 1) |
| Geolocation.Decimal | src/lib/watt-time/index.ts:124 | the value of `whole.frac` is never negative |
| Geolocation.ParseUnsigned | src/lib/watt-time/index.ts:124 | the unsigned part of `parseFloat`: a non-negative number when the text starts with a digit, nothing for empty text |
| Geolocation.ParseFloat | src/lib/watt-time/index.ts:124 | empty text or a lone sign gives NaN; a leading digit gives a number >= 0; a minus and a digit give a number <= 0 |
| Geolocation.DigitRunOfDigits | src/lib/watt-time/index.ts:124 | a run of digits ends at the first character that is not a digit |
| Geolocation.ParseUnsignedDecimal | src/lib/watt-time/index.ts:124 | the unsigned reading of `whole.frac` is its decimal value |
| Geolocation.ParseFloatDecimal | src/lib/watt-time/index.ts:124 | `parseFloat` reads `whole.frac` as its decimal value |
| Geolocation.ParseFloatNegativeDecimal | src/lib/watt-time/index.ts:124 | `parseFloat` reads `-whole.frac` as the negated decimal value |
| Geolocation.ParseGeolocation | src/lib/watt-time/index.ts:115-141 | `parseLocation` fails exactly when the `geolocation` is missing or does not match the pattern, and then with the schema's error (`InvalidGeolocation`) |
| Geolocation.SplitMatched | src/lib/watt-time/index.ts:122 | a match splits at its comma into exactly two halves |
| Geolocation.ParseGeolocationOfSplit | src/lib/watt-time/index.ts:121-124 | a matching string parses to the `parseFloat` of its two halves |
| Geolocation.ParseMatched | src/lib/watt-time/index.ts:115-141 | a match parses to the decimal before the comma and the negated decimal after the minus sign |
| Geolocation.LatitudeOfMatch | src/lib/watt-time/index.ts:122-124 | the half before the comma reads as the decimal it spells |
| Geolocation.LongitudeOfMatch | src/lib/watt-time/index.ts:122-124 | the half after the comma reads as the negated decimal it spells |
| Geolocation.MatchedGeolocationParses | src/lib/watt-time/index.ts:95-141 | every matching string parses to two numbers, latitude >= 0 and longitude <= 0, so the NaN check never fires after a match |
| Geolocation.CheckInput | src/lib/watt-time/index.ts:96-107 | a record without `geolocation` passes; a failure is the pattern's error or NaN at this index |
| Geolocation.FirstFailurePasses | src/lib/watt-time/index.ts:96-108 | the loop gets through exactly when every check passes; otherwise it stops at one of the failing checks |
| Geolocation.FirstFailureAt | src/lib/watt-time/index.ts:96-108 | when all checks before `i` pass and check `i` fails, the loop stops with check `i` |
| Geolocation.ValidationOutcomeIff | src/lib/watt-time/index.ts:95-141 | a batch passes exactly when every present `geolocation` matches the pattern, and a failure is always the pattern's error |
| Geolocation.RejectedWithoutMinus | src/lib/watt-time/index.ts:134 | a string in which no comma is followed by a minus sign is rejected |
| Geolocation.ExampleAccepted | src/lib/watt-time/index.ts:115-141 | `"45.0,-122.0"` parses to latitude 45 and longitude -122 |
| Geolocation.ExampleDecimals | src/lib/watt-time/index.ts:124 | the digit strings of `"45.0,-122.0"` spell 45 and 122 |
| Geolocation.ExampleNoFraction | src/lib/watt-time/index.ts:134 | `"45,-122"` is rejected |
| Geolocation.ExampleNoMinusSign | src/lib/watt-time/index.ts:134 | `"45.0,122.0"` is rejected |
| WindowPartition.InWindow | src/lib/watt-time/index.ts:81-85 | the three-part test holds exactly for `start <= t < end` |
| WindowPartition.Kept | src/lib/watt-time/index.ts:80-89 | the kept samples are exactly the fetched ones inside `[start, end)`, and no more of them |
| WindowPartition.Converted | src/lib/watt-time/index.ts:78-86 | one value per kept sample, its reading divided by 0.45359237, each one times 0.45359237 giving back the raw reading |
| WindowPartition.DataForDuration | src/lib/watt-time/index.ts:73-90 | the push loop yields the in-window readings in fetched order, and they are the kept samples divided by 0.45359237 |
| WindowPartition.SelectIsConvertedKept | src/lib/watt-time/index.ts:80-89 | the pushed readings are the kept samples divided one by one, in order |
| WindowPartition.KeptAppend | src/lib/watt-time/index.ts:80-89 | the selection of a concatenation is the concatenation of the selections, so fetched order is kept |
| WindowPartition.KeptSingle | src/lib/watt-time/index.ts:81-85 | a single sample is kept exactly when it lies in the window |
| WindowPartition.KeptLength | src/lib/watt-time/index.ts:80-89 | the number of kept samples is the number of sample positions in the window |
| WindowPartition.IndicesOfSnoc | src/lib/watt-time/index.ts:80-89 | dropping the last sample drops at most its own position from the in-window positions |
| WindowPartition.KeptAdjacent | src/lib/watt-time/index.ts:81-85 | adjacent windows `[a, b)` and `[b, c)` split the samples of `[a, c)`, and a sample at `b` counts only in the second |
| WindowPartition.WindowMeanEmpty | src/lib/watt-time/index.ts:45-57 | a window has no intensity exactly when no fetched sample lies in it |
| WindowPartition.SumBounds | src/lib/watt-time/index.ts:59 | the sum of `n` readings in `[lo, hi]` lies in `[n * lo, n * hi]` |
| WindowPartition.MeanBounds | src/lib/watt-time/index.ts:59-60 | the sum divided by the count lies between any bounds of the readings |
| WindowPartition.WindowMeanBounds | src/lib/watt-time/index.ts:59-60 | raw readings in `[lo, hi]` give an intensity in `[lo, hi]` divided by 0.45359237 |
| WindowPartition.ExampleHalfOpenWindow | src/lib/watt-time/index.ts:81-85 | readings at 10:00 and 10:30 are kept and the one at 11:00 is dropped from 10:00-11:00, and the intensity is their mean |
| WattTime.WattTimeRequest | src/lib/watt-time/index.ts:148-158 | spans over 32 days fail with their length; otherwise the query exists exactly when the first record parses, and then it spans the merged window at the first record's coordinates |
| WattTime.Means | src/lib/watt-time/index.ts:42-63 | one intensity per record |
| WattTime.WrittenPrefix | src/lib/watt-time/index.ts:42-57 | the written values are the intensities of the longest run of non-empty windows from the start, and the window after them is empty |
| WattTime.Collect | src/lib/watt-time/index.ts:42-63 | success exactly when every window has an intensity, with one value per record; otherwise `NoData(i)` for the first empty window `i` |
| WattTime.Run | src/lib/watt-time/index.ts:36-64 | one `execute` call never writes more intensities than the batch has records |
| WattTime.WithIntensities | src/lib/watt-time/index.ts:60 | record `k` gets intensity `k` for the written prefix, and every other field and record is unchanged |
| WattTime.ParseLocation | src/lib/watt-time/index.ts:115-125 | returns `parseLocation` of the record's `geolocation`; writing the validated value back leaves the batch unchanged |
| WattTime.CheckLocation | src/lib/watt-time/index.ts:96-107 | returns the check of record `i` and leaves the batch unchanged |
| WattTime.ValidateInputs | src/lib/watt-time/index.ts:95-109 | returns the first failing check in record order, or passes, and leaves the batch unchanged |
| WattTime.GetWattTimeData | src/lib/watt-time/index.ts:148-161 | sends the model's query, if any, once, returns what the client answered, and leaves the batch unchanged |
| WattTime.AnnotateOne | src/lib/watt-time/index.ts:43-62 | writes the mean of record `i`'s window into record `i` exactly when the window is non-empty; nothing else changes |
| WattTime.Annotate | src/lib/watt-time/index.ts:42-63 | succeeds exactly when every window is non-empty, returning a new array of the same records, else `NoData(i)` for the first empty one; the input array holds the intensities written up to there |
| WattTime.Copy | src/lib/watt-time/index.ts:42 | the array `map` returns is new and holds the same records in the same order |
| WattTime.Execute | src/lib/watt-time/index.ts:36-64 | the outcome, the error, the query sent and the new array contents are those of `Run` on the old contents; on success a new array of the same records comes back |
| WattTime.MeansAt | src/lib/watt-time/index.ts:42-63 | entry `k` of the intensities is record `k`'s |
| WattTime.IntensityOfSelected | src/lib/watt-time/index.ts:45-60 | a record's intensity is the mean of its selected readings when there are any |
| WattTime.WithOneMore | src/lib/watt-time/index.ts:60 | writing one more intensity changes exactly the next record |
| WattTime.WrittenIs | src/lib/watt-time/index.ts:42-57 | values written for a run of non-empty windows, up to an empty one or the end, are the written prefix |
| RunProperties.RunRejectsMalformed | src/lib/watt-time/index.ts:36-40 | one present non-matching `geolocation` fails the batch with the pattern's error, with no query and nothing written |
| RunProperties.RunValidates | src/lib/watt-time/index.ts:95-109 | a batch validates exactly when every present `geolocation` matches; `execute` never fails with NaN |
| RunProperties.RunEmptyBatch | src/lib/watt-time/index.ts:148-151 | an empty batch fails with the schema's error (`InvalidGeolocation`), with no query and nothing written |
| RunProperties.RunSpanTooLong | src/lib/watt-time/index.ts:193-202 | a validated batch spanning more than 32 days fails with the span in seconds before any query |
| RunProperties.RunRequest | src/lib/watt-time/index.ts:148-158 | a query is sent exactly when the batch validates, spans at most 32 days and its first record has a `geolocation`; the query covers every record's window and carries numbers, latitude >= 0 and longitude <= 0 |
| RunProperties.RunAfterFetch | src/lib/watt-time/index.ts:40-42 | once the series is fetched, the query was sent and the result is the annotation over that series |
| RunProperties.AnnotationOutcome | src/lib/watt-time/index.ts:42-63 | record `k` receives the mean of its own window; success exactly when every window holds a sample; otherwise `NoData(i)` at the first empty window `i` after records `0..i-1` were written |
| RunProperties.RunAnnotates | src/lib/watt-time/index.ts:36-64 | the same for a whole `execute` call whose fetch succeeded: on success the result is the written values, one per record |
| RunProperties.RunIntensityBounds | src/lib/watt-time/index.ts:59-60 | readings in `[lo, hi]` lbs/MWh give written intensities in `[lo, hi]` divided by 0.45359237 |

Plain definitions without a row of their own, each carried by the rows that
cite the same lines:

- `IntervalMerger.Fold`: index.ts:176-191, the `reduce` over the batch; see `FoldIsMinMax`.
- `IntervalMerger.MergedWindow`: index.ts:176-191, the fold from the two sentinels; see `MergedWindowIsMinMax`.
- `Geolocation.MatchesGeolocation`: index.ts:134, the pattern test; see `MatchesGeolocationIff`.
- `Geolocation.ValidateSingleInput`: index.ts:130-141, the zod schema; see `ParseGeolocation`.
- `Geolocation.ValidationOutcome`: index.ts:95-109, `validateInputs`; see `ValidationOutcomeIff`.
- `WindowPartition.Select`: index.ts:80-89, the push fold; see `SelectIsConvertedKept`.
- `WindowPartition.Sum`: index.ts:59, the `reduce` that adds the readings; see `SumBounds`.
- `WindowPartition.Mean`: index.ts:59-60, the sum over the count; see `MeanBounds`.
- `WindowPartition.WindowMean`: index.ts:45-60, one record's intensity; see `WindowMeanEmpty` and `WindowMeanBounds`.
- `WattTime.Fetched`: index.ts:148-161, the series `getWattTimeData` returns; see `GetWattTimeData`.

## Left out

- Authentication and configuration are not modelled: `initializeAuthentication`, `validateConfig`, `extractParamsFromConfig` and `removeENVPrefix` (src/lib/watt-time/index.ts:26-31, 210-244). They are credential plumbing over environment variables and the HTTP client.
- `wattTimeAPI.fetchAndSortData` is the parameter `source`. The HTTP client is not part of this model, and neither is the sorting of the series it returns.
- `Promise`s and `async`/`await` are not modelled. The steps run in sequence.
- Dates are whole seconds since 1970-01-01T00:00:00Z. dayjs parsing and formatting are not modelled. That includes the local-time reading of the two sentinel dates, taken here as 253402214400 and 0 in UTC. Sub-second precision is also left out, so the `format()` comparison becomes `t != end`.
- Readings, the constant 0.45359237 and the mean are exact `real`s, not IEEE doubles. Rounding, infinities and overflow are not modelled.
- Geolocation.ParseFloat: models `parseFloat` on the prefix grammar `[+-] digits [. digits]` only. Leading whitespace, exponents and `Infinity` are left out. Every string the pattern accepts lies inside that grammar.
- A `geolocation` that is present but not a string is taken as a string.
- `InvalidGeolocation` stands for three different messages of the source: the pattern's message (index.ts:135-136), zod's "Required" for a missing `geolocation` on `inputs[0]`, and the error for a missing `inputs[0]` (index.ts:151). The model does not tell them apart.
- The error messages are not modelled. Each error keeps only its kind and the index or span it names.
- The records are values in an array, so two slots holding the same object is not modelled. Both slots would share one `timestamp` and `duration` and so receive the same intensity.
- `Object.assign` in `parseLocation` writes the validated `geolocation` back into the record. The model performs the write, and it leaves the record unchanged.
- WattTime.Run: its own ensures state only a bound on what is written. What `execute` promises is proved about `Run` in `RunProperties`.
- src/lib/boavizta/index.ts, src/lib/synapse_carbon_extractor/synapsecarbonextractor.ts and src/__mocks__/watt-time/index.ts are not part of this model. They are wrappers over remote services, a log query runner and a test double.
