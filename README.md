# Household-utilities core, modelled in Dafny

This project models the deterministic core of a collection of small Python
utilities:

- **kasa-smart-plug**: the appliance-cycle state machine. Power readings from a
  smart plug drive a washer or dryer through Idle, Running and Finishing, and
  one completion notice is produced per cycle.
- **vegas-score**: the Las Vegas health score.
  - The environmental and economic fetchers' selection logic: alert filter, AQI
    entry choice, UV and drought endpoint fallback, reservoir capacity, worst
    drought level, BLS checks and the year-over-year lookup, FRED key check, and
    `fetch_all` error capture with its status lines.
  - The indicator curves and weighted averages of the score engine.
  - The letter grades and bars of the display.
- **create-instapaper**: bookmark upload.
  - Loading bookmark requests from text, CSV and JSON files.
  - The API client's payloads, token-response parsing and ordered bulk add.
  - The command line's request collection, credential prompting and dry run.
- **instapaper-extract** (the package and `extract_articles.py`): export.
  - Merging and de-duplicating the fetched bookmark categories, and highlight
    collection.
  - HTML cleaning, CSV rows and the JSON document grouped by bookmark.
  - The highlights output path and the command line's credential, filter and
    exit-code logic.
- **lake-mead-data**: the trend analysis. It computes month-over-month and
  year-over-year status, the current and longest declining streaks, and the
  last-12-month summary.
- **powerpoint-lib**: the table exporter.
  - Cell formatting and display values from a styled table, with their trimming.
  - Column-order validation and projection.
  - The order of effects of an export, including removal of the temporary image.

Every network reply, file, environment variable, clock reading, console answer
and library result is a parameter of the model: an `Option`, a `Result`, a map
or a decoded JSON value. Code that changes state step by step is modelled as
imperative Dafny, each part proved against a function of its inputs:

- `ApplianceMonitor.CheckState`;
- the client objects with their session fields;
- the loading, merging, grouping and streak loops;
- `fetch_all`;
- the column-formatting loop.

Pure code is modelled as functions with lemmas.

Some behaviour is kept exactly as the code has it, because it is what the
code does, even where a comment or a reader might expect otherwise:

- `composite` falls back to `env or econ`, so an environmental score of 0.0
  with no economic score gives no composite (`CompositeZeroIsMissing`).
- The AQI curve is `100 - 0.6 * aqi`. Its inline comment lists other anchor
  values; the model follows the formula (`AqiAnchors`).
- After a failed login, `InstapaperExtractor` keeps the client it created, so
  later calls do not log in again (`InstapaperExtractor.Client`).
- `extract_articles.py` writes an empty cell for a missing time or progress,
  where the package writes 0 and 0.0 (`ArticleRowAgainstPackage`).
- `extract_articles.py` prints `bookmark.title[:50]` before writing each row,
  so an article without a title stops the export with the rows before it
  (`WriteArticles`, `ArticlesRunWrites`).
- The Lake Mead year-over-year comparison looks for the last month-end on or
  before the latest month-end minus one year, as the code does
  (`YearOverYearOf`); `YearOverYearAsIntended` shows where that differs from
  the same month of the previous year.
- The table exporter trims with `values[-n:]`, which keeps everything when n
  is 0, and the frame constructor can then refuse the rows (`StylerFrame`,
  `StylerFrameRejects`).

One file per source module:

| file | module | models |
|---|---|---|
| common.dfy | Common | Python string helpers (`strip`, `split`, `join`, `lower`, slicing) and Option/Result |
| kasa_monitor.dfy | KasaMonitor | kasa-smart-plug/monitor.py |
| vegas_scoring.dfy | VegasScoring | vegas-score/scoring.py |
| vegas_display.dfy | VegasDisplay | vegas-score/display.py |
| source_fetch.dfy | SourceFetch | what both fetchers share: JSON access, `float()`/`int()`/`str()`, `fetch_all`, `_summary`, endpoint fallback |
| environmental.dfy | Environmental | vegas-score/fetchers/environmental.py |
| economic.dfy | Economic | vegas-score/fetchers/economic.py |
| bookmark_loader.dfy | BookmarkLoader | create-instapaper/create_instapaper/io_utils.py |
| upload_client.dfy | UploadClient | create-instapaper/create_instapaper/client.py |
| upload_cli.dfy | UploadCli | create-instapaper/create_instapaper/cli.py |
| export_io.dfy | ExportIo | instapaper-extract/instapaper_extract/io_utils.py |
| extractor.dfy | Extractor | instapaper-extract/instapaper_extract/client.py |
| extract_cli.dfy | ExtractCli | instapaper-extract/instapaper_extract/cli.py |
| extract_articles.dfy | ExtractArticles | instapaper-extract/extract_articles.py |
| lake_mead_trends.dfy | LakeMeadTrends | `analyze_trends` in lake-mead-data/lake_mead_analyzer.py |
| table_exporter.dfy | TableExporter | powerpoint-lib/powerpoint_lib/table_exporter.py |

## Model

| member | source | states |
|---|---|---|
| KasaMonitor.DefaultConfig | kasa-smart-plug/monitor.py:51-59 | the configuration defaults: running threshold below start threshold, 120 s idle threshold, 10 s interval |
| KasaMonitor.Initial | kasa-smart-plug/monitor.py:65-71 | a new monitor is Idle with no timers and last power 0, which satisfies the timer invariant |
| KasaMonitor.Step | kasa-smart-plug/monitor.py:102-153 | one state check, branch by branch. A failed read changes nothing and reports nothing. Every read is remembered. Idle starts a cycle at the start threshold. Running starts or clears the idle timer. Finishing resumes on power, completes after the idle threshold, or otherwise waits. A notice is produced exactly on the Finishing to Idle step, with the cycle's duration and final power. The timer invariant is kept |
| KasaMonitor.ApplianceMonitor.constructor | kasa-smart-plug/monitor.py:65-71 | the object's four fields start as `Initial()` and the invariant holds |
| KasaMonitor.ApplianceMonitor.CheckState | kasa-smart-plug/monitor.py:102-153 | updating the four fields in place gives exactly the new fields and the notice of `Step`, and keeps the invariant (cycle start set iff not Idle, idle start set iff Finishing) |
| KasaMonitor.Run | kasa-smart-plug/monitor.py:102-153 | a sequence of checks keeps the invariant and yields at most one notice per reading |
| KasaMonitor.OneCompletionPerCycle | kasa-smart-plug/monitor.py:112-153 | over any run, notices plus a cycle still in progress equal the cycles started plus one already in progress: exactly one notice per cycle |
| KasaMonitor.CycleOutlastsIdleThreshold | kasa-smart-plug/monitor.py:136-143 | with a clock that does not go backwards, the timestamps stay ordered and a reported cycle lasted at least the idle threshold |
| KasaMonitor.RunCyclesOutlastIdleThreshold | kasa-smart-plug/monitor.py:136-143 | over a run with non-decreasing times, every reported cycle lasted at least the idle threshold |
| VegasScoring.Clamp | vegas-score/scoring.py:36-37 | the result lies in [lo, hi], equals v inside the range, and lo or hi outside it |
| VegasScoring.Clamp100 | vegas-score/scoring.py:36-37 | default bounds: in [0, 100], the identity on [0, 100] |
| VegasScoring.ClampMonotone | vegas-score/scoring.py:36-37 | clamping preserves order |
| VegasScoring.AqiScore | vegas-score/scoring.py:46-50 | in [0, 100]; 100 at AQI 0 and below; 0 from AQI 500/3 on |
| VegasScoring.AqiAnchors | vegas-score/scoring.py:49-50 | the curve's actual values: 0→100, 42→74.8, 50→70, 100→40, 150→10, 200→0. This is not the inline comment's 50→90, 100→50, 150→20 |
| VegasScoring.HeatScore | vegas-score/scoring.py:64-71 | in [0, 100], and exactly 100 iff 65 ≤ t ≤ 80 |
| VegasScoring.HeatMonotone | vegas-score/scoring.py:64-71 | comfort never falls while warming up to 80 °F and never rises while warming from 65 °F |
| VegasScoring.UvScore | vegas-score/scoring.py:92-103 | in [5, 100], and exactly 100 iff uv ≤ 2 |
| VegasScoring.UvMonotone | vegas-score/scoring.py:92-103 | a higher UV index never scores better |
| VegasScoring.WaterScore | vegas-score/scoring.py:82-83 | in [0, 100], equal to the capacity percentage inside that range |
| VegasScoring.DroughtScore | vegas-score/scoring.py:111-112 | in [0, 100], equal to 100 − area percentage inside that range |
| VegasScoring.AlertScore | vegas-score/scoring.py:119-122 | 15 points off per alert up to 6 alerts, 0 from 7 on |
| VegasScoring.UnemploymentScore | vegas-score/scoring.py:139-143 | in [0, 100]; 3% or less scores 100, 10% or more scores 0 |
| VegasScoring.JobGrowthScore | vegas-score/scoring.py:149-154 | in [0, 100]; +30K scores 100, 0 scores 50, −30K scores 0 |
| VegasScoring.HospitalityScore | vegas-score/scoring.py:162-166 | in [0, 100]; the percentage of the 290K peak, capped at 100 |
| VegasScoring.CpiScore | vegas-score/scoring.py:172-176 | in [0, 100]; 300 or less scores 100, 340 or more scores 0 |
| VegasScoring.HousingScore | vegas-score/scoring.py:182-187 | in [0, 100]; $250K or less scores 100, $600K scores 20 |
| VegasScoring.GasScore | vegas-score/scoring.py:196-199 | in [0, 100]; $3 or less scores 100, $5 or more scores 0 |
| VegasScoring.MortgageScore | vegas-score/scoring.py:205-209 | in [0, 100]; 5% or less scores 100, 7% scores 40, 8% scores 10 |
| VegasScoring.EconomicMonotone | vegas-score/scoring.py:139-209 | every economic curve is monotone: only job growth and hospitality rise with their input |
| VegasScoring.HeatEntry | vegas-score/scoring.py:56-77 | unavailable when the weather failed or has no temperature; "parse error" when the text with "°F" and "°C" removed does not read as a number; otherwise scored by the heat curve at the number read, within [0, 100] |
| VegasScoring.HeatOfFahrenheit | vegas-score/scoring.py:58-73 | a reading such as "85°F" is scored at its number, shown as that number |
| VegasScoring.JobGrowthEntry | vegas-score/scoring.py:149-160 | unavailable unless the year-over-year text is non-empty and contains "K"; "parse error" when the text without "K YoY" and "+" does not read as a number; otherwise scored by the job-growth curve at the number read |
| VegasScoring.FetchedYoyScores | vegas-score/scoring.py:149-156 | the text the employment fetcher writes is unavailable when it has no change, and otherwise is scored at the change it reports, in thousands |
| VegasScoring.ChangeTextScores | vegas-score/scoring.py:149-156 | a reported change of t tenths of a thousand jobs is scored at t / 10 thousand |
| VegasScoring.YoyTextParses | vegas-score/scoring.py:151-153 | "+N.NK YoY" and "-N.NK YoY" contain "K" and read back as the signed number of tenths over ten |
| VegasScoring.JobGrowthOfReading | vegas-score/scoring.py:151-156 | a text with a "K" that reads as a number is scored at that number |
| VegasScoring.ReadingEntry | vegas-score/scoring.py:154-156 | a parsed change gives an entry whose score is the job-growth curve at that change, whose raw value is the change and whose caption shows it |
| VegasScoring.YoyTextParts | vegas-score/fetchers/economic.py:146 | the fetcher's text is the sign, the whole thousands, a point, the tenth and "K YoY", and those parts make up the change |
| VegasScoring.DecimalNumeralChars | vegas-score/fetchers/economic.py:146 | the one-decimal numeral is made of digits and a point |
| VegasScoring.PlusYoyReads | vegas-score/scoring.py:153 | "+", a numeral and "K YoY" contain "K" and read as the numeral |
| VegasScoring.MinusYoyReads | vegas-score/scoring.py:153 | "-", a numeral and "K YoY" contain "K" and read as the numeral with its minus sign |
| VegasScoring.YoyReads | vegas-score/scoring.py:153 | a signed numeral followed by "K YoY" reads as the numeral with any plus sign removed |
| VegasScoring.RemoveSuffix | vegas-score/scoring.py:153 | removing "K YoY" from a numeral followed by it leaves the numeral |
| VegasScoring.DropPlus | vegas-score/scoring.py:153 | removing "+" drops a leading plus sign and keeps a minus sign |
| VegasScoring.Remove | vegas-score/scoring.py:60 | `str.replace(pat, "")` never makes the text longer |
| VegasScoring.RemoveSkips | vegas-score/scoring.py:60 | text holding no first character of the pattern passes through the removal unchanged |
| VegasScoring.RemoveWhole | vegas-score/scoring.py:60 | the pattern alone is removed entirely |
| VegasScoring.ContainsAfter | vegas-score/scoring.py:151 | text followed by a part that starts with the substring contains it |
| VegasScoring.WeightTablesSumToOne | vegas-score/scoring.py:16-34 | both weight tables are positive and sum to 1 |
| VegasScoring.EnvEntries | vegas-score/scoring.py:43-127 | the six environmental indicators, keyed in weight-table order and each well formed; each present reading is scored by its own curve with its raw value and label, and heat comfort is the heat entry |
| VegasScoring.EconEntries | vegas-score/scoring.py:136-213 | the seven economic indicators, keyed in weight-table order and each well formed; each present reading is scored by its own curve with its raw value and label, and job growth is the job-growth entry |
| VegasScoring.MissingIsUnavailable | vegas-score/scoring.py:43-213 | each of the thirteen indicators whose reading is missing (for heat, no temperature or a failed weather source; for job growth, an empty text) has no score and the label "unavailable" |
| VegasScoring.AverageMissingIff | vegas-score/scoring.py:230-241 | the weighted average is missing iff no weighted indicator has a score |
| VegasScoring.PresentWeightPositive | vegas-score/scoring.py:234-239 | the accumulated weight is positive iff some weighted indicator has a score |
| VegasScoring.WeightedSumLower | vegas-score/scoring.py:234-238 | the weighted sum is at least the least present score times the accumulated weight |
| VegasScoring.WeightedSumUpper | vegas-score/scoring.py:234-238 | the weighted sum is at most the greatest present score times the accumulated weight |
| VegasScoring.AverageWithinBounds | vegas-score/scoring.py:230-241 | the weighted average is a convex combination: it lies between any lower and upper bound of the present scores |
| VegasScoring.WeightedAvg | vegas-score/scoring.py:230-241 | the accumulating loop skips missing scores and returns the weighted average of the present ones, or none when no weight was accumulated |
| VegasScoring.ScoreEnvironmental | vegas-score/scoring.py:43-130 | the environmental sheet holds the six entries; its overall score is their weighted average, missing iff no indicator is scored, and otherwise in [0, 100] |
| VegasScoring.ScoreEconomic | vegas-score/scoring.py:136-216 | the economic sheet holds the seven entries; its overall score is their weighted average, missing iff no indicator is scored, and otherwise in [0, 100] |
| VegasScoring.WellFormedEntriesBound | vegas-score/scoring.py:230-241 | over scores in [0, 100], the weighted average lies in [0, 100] |
| VegasScoring.Composite | vegas-score/scoring.py:222-226 | the mean of both groups when both exist, between the two; otherwise `env or econ`, so an environmental 0.0 with no economic score gives none |
| VegasScoring.CompositeZeroIsMissing | vegas-score/scoring.py:226 | `composite(0.0, None)` is None |
| VegasDisplay.GradeOf | vegas-score/display.py:104-116 | "?" iff the score is missing; A iff ≥ 90, B iff in [75, 90), C iff in [60, 75), D iff in [40, 60), F iff < 40 |
| VegasDisplay.GradeMatchesLegend | vegas-score/display.py:100 | a score earns a letter iff it reaches that letter's floor in the printed legend and not the next letter's |
| VegasDisplay.GradeMonotone | vegas-score/display.py:107-116 | a higher score never gets a worse letter |
| VegasDisplay.RoundHalfEven | vegas-score/display.py:50 | Python's `round`: within 0.5 of x, ties to an even integer |
| VegasDisplay.RoundMonotone | vegas-score/display.py:50 | rounding preserves order |
| VegasDisplay.RoundWithin | vegas-score/display.py:50 | rounding keeps [0, 20] within [0, 20] |
| VegasDisplay.Filled | vegas-score/display.py:50-51 | a score in [0, 100] fills between 0 and 20 cells, and the cells are within 2.5 points of the score |
| VegasDisplay.MiniBar | vegas-score/display.py:118-125 | a missing score gives 20 empty cells; a score in [0, 100] gives its filled cells, then the empty ones, 20 in all |
| Common.ReplaceUnderscores | vegas-score/display.py:43 | every underscore becomes a space and nothing else changes |
| VegasDisplay.DisplayName | vegas-score/display.py:43 | `key.replace("_", " ").title()` keeps the key's length |
| VegasDisplay.DisplayNameOfSnakeCase | vegas-score/display.py:43 | for a lower-case snake_case key, each word's first letter is upper-case, the rest are lower-case, and underscores become spaces |
| VegasDisplay.LineOf | vegas-score/display.py:40-59 | a missing score shows 20 empty cells and "N/A" with no grade; a present one shows its bar and grade |
| VegasDisplay.ScoreLinesCoverItems | vegas-score/display.py:37-40 | one line per item except "overall", in order, each for its own item |
| VegasDisplay.SubGrade | vegas-score/display.py:84-85 | a composite sub-grade is "?" iff the sub-score is missing or exactly 0.0 (falsy); otherwise it is the score's grade |
| SourceFetch.GetOr | vegas-score/fetchers/environmental.py:116 | `d.get(key, default)`: fails on a non-dict; otherwise the key's value, or the default when the key is absent |
| SourceFetch.Field | vegas-score/fetchers/economic.py:120-123 | `d[key]`: succeeds iff d is a dict holding the key, and gives its value |
| SourceFetch.At | vegas-score/fetchers/economic.py:120 | `data[k]`: succeeds iff data is a list longer than k, and gives its k-th item |
| SourceFetch.IntRoundTrip | vegas-score/fetchers/economic.py:140 | `int(str(i)) == i` for every integer, so the prior year's text names year − 1 |
| SourceFetch.NatParsesAsDecimal | vegas-score/fetchers/economic.py:122 | `float()` of a natural number's decimal text is that number |
| SourceFetch.OneDecimalParses | vegas-score/fetchers/economic.py:146 | a one-decimal numeral as `:.1f` writes it reads back as its whole part plus its tenths, with or without a minus sign |
| SourceFetch.OneDecimalText | vegas-score/fetchers/economic.py:146 | digits, a point and one digit read as the whole part plus a tenth |
| SourceFetch.MinusOneDecimalText | vegas-score/fetchers/economic.py:146 | the same numeral after a minus sign reads as the negation of the whole part plus a tenth |
| SourceFetch.PositiveDecimalExample | vegas-score/fetchers/economic.py:122 | `float("2.5")` is 2.5 |
| SourceFetch.NegativeDecimalExample | vegas-score/fetchers/economic.py:122 | `float("-0.75")` is −0.75 |
| SourceFetch.LoneDotIsNotDecimal | vegas-score/fetchers/economic.py:122 | `float(".")` raises |
| SourceFetch.ToFloat | vegas-score/fetchers/economic.py:122 | `float()` of a JSON value: numbers as themselves, text parsed as a decimal, null, lists and dicts raise |
| SourceFetch.ToInt | vegas-score/fetchers/economic.py:140 | `int()` of a JSON value: integers as themselves, text parsed, a non-negative real truncated to the integer below, null, lists and dicts raise |
| SourceFetch.StrOf | vegas-score/fetchers/economic.py:123 | `str()` of a JSON string is the string itself |
| SourceFetch.EntryOf | vegas-score/fetchers/environmental.py:44-50 | a source's entry is its result when it returns, and `{"error": message}` when it raises |
| SourceFetch.CollectedEntries | vegas-score/fetchers/environmental.py:43-56 | the collected dict has exactly the listed keys, and with distinct keys each key holds its own source's entry |
| SourceFetch.Label | vegas-score/fetchers/environmental.py:52-54 | `f"{label:.<30s}"` of the title-cased key: the label, then dots up to 30 characters |
| SourceFetch.ErrorSummary | vegas-score/fetchers/environmental.py:60-61 | "unavailable (" + the first 40 characters of the message + ")", at most 54 characters |
| SourceFetch.StatusLine | vegas-score/fetchers/environmental.py:47-54 | a failed source prints the warning mark and the error summary; a fetched one prints the check mark and its summary |
| SourceFetch.StatusLinesEach | vegas-score/fetchers/environmental.py:43-54 | one status line per source, in source order, each for its own entry |
| SourceFetch.FetchAll | vegas-score/fetchers/environmental.py:31-56 | the loop stores every source's entry, whether it failed or not, and prints one status line per source unless quiet |
| SourceFetch.FirstParsedAt | vegas-score/fetchers/environmental.py:176-192 | the first endpoint whose reply parses; none iff every endpoint fails or gives an unusable reply |
| SourceFetch.FallbackOrder | vegas-score/fetchers/environmental.py:176-192 | endpoints are tried in listed order: the call fails iff every endpoint fails, and otherwise returns the first usable endpoint's reading |
| SourceFetch.TryEndpoints | vegas-score/fetchers/environmental.py:176-192 | the loop over endpoints with `continue` on failure returns exactly the fallback result |
| Environmental.AreaDesc | vegas-score/fetchers/environmental.py:124 | `f.get("properties", {}).get("areaDesc", "")`: a feature without properties has an empty area |
| Environmental.AlertOf | vegas-score/fetchers/environmental.py:117-122 | an alert is built iff the feature has properties with event, severity and headline |
| Environmental.ClarkFeatures | vegas-score/fetchers/environmental.py:123-124 | the kept features are input features whose area mentions "Clark" |
| Environmental.ClarkAlerts | vegas-score/fetchers/environmental.py:117-125 | one alert per kept feature, in order; the comprehension succeeds iff every feature's area is readable and every kept one has the three fields |
| Environmental.FetchAlerts | vegas-score/fetchers/environmental.py:110-126 | the count equals the number of alerts, and a failed request is passed on |
| Environmental.ClarkCount | vegas-score/fetchers/environmental.py:117-126 | `clark_county_alerts` is the number of features whose area mentions "Clark", each alert from one of them in order |
| Environmental.NoFeaturesNoAlerts | vegas-score/fetchers/environmental.py:116 | a body without "features" gives no alerts |
| Environmental.FirstPm25 | vegas-score/fetchers/environmental.py:149 | the first PM2.5 observation; none iff there is none |
| Environmental.AqiEntry | vegas-score/fetchers/environmental.py:149-150 | the first PM2.5 entry if any, else the first entry; fails iff some entry is not a dict |
| Environmental.AqiOf | vegas-score/fetchers/environmental.py:151-156 | the reading takes the entry's AQI and parameter name, or None when absent |
| Environmental.FetchAqi | vegas-score/fetchers/environmental.py:135-157 | no API key, or an empty reply, raises the AirNow key message; a failed request is passed on |
| Environmental.AqiPrefersPm25 | vegas-score/fetchers/environmental.py:147-156 | with a key and observations, a PM2.5 observation is reported when there is one, and the first observation otherwise |
| Environmental.ParseUv | vegas-score/fetchers/environmental.py:181-186 | a UV reply is usable iff it is a non-empty list whose first item is a dict; the zip is always 89052 |
| Environmental.FetchUv | vegas-score/fetchers/environmental.py:168-192 | the two hosts are tried in order, and the call raises only after both fail |
| Environmental.UvSecondHost | vegas-score/fetchers/environmental.py:176-192 | a usable first reply decides; otherwise the second reply decides, or the "unavailable" error |
| Environmental.CapacityPercent | vegas-score/fetchers/environmental.py:217-218 | 895 ft gives 0%, 1229 ft gives 100%, and the percentage is in [0, 100] iff the elevation is between dead pool and full pool |
| Environmental.CapacityIncreasing | vegas-score/fetchers/environmental.py:218 | a higher elevation gives a higher percentage |
| Environmental.LakeMead | vegas-score/fetchers/environmental.py:195-224 | an empty reply raises "No Lake Mead elevation data returned"; a reading has a numeric elevation and its capacity percentage |
| Environmental.LakeMeadShapes | vegas-score/fetchers/environmental.py:206-224 | a dict of numbered points uses point "0"'s result; a list uses its first item's result, else its value; a point "0" with no result raises |
| Environmental.CheckLevel | vegas-score/fetchers/environmental.py:290-291 | a level that is absent is not positive, and a positive level carries its percentage |
| Environmental.ScanLevels | vegas-score/fetchers/environmental.py:289-301 | the first positive level in the given order, with its percentage; none iff no level is positive; fails iff an unreadable level comes first |
| Environmental.WorstLevel | vegas-score/fetchers/environmental.py:289-301 | the loop over d4..d0 with early return gives exactly the scan's result |
| Environmental.WorstDroughtCategory | vegas-score/fetchers/environmental.py:289-308 | the category is the most severe positive level, reported with its percentage; with no positive level it is "None" at 0% with `none` defaulting to 100 |
| Environmental.FetchDrought | vegas-score/fetchers/environmental.py:264-311 | the two domains are tried in order, and the call raises only after both fail |
| Environmental.Lift | vegas-score/fetchers/environmental.py:44-50 | a source's error is kept as it is, and its reading is tagged with its kind |
| Environmental.EnvironmentOutcomes | vegas-score/fetchers/environmental.py:34-42 | one outcome per source, in the listed order |
| Environmental.FetchEnvironment | vegas-score/fetchers/environmental.py:31-56 | `fetch_all` stores each source's entry under its key and prints one status line per source unless quiet |
| Environmental.EnvironmentEntries | vegas-score/fetchers/environmental.py:43-50 | every source has its own entry, holding its reading or its error, whatever the other sources did |
| Economic.BlsYears | vegas-score/fetchers/economic.py:96-99 | given years are kept; the defaults name the current year − 2 and the current year |
| Economic.BlsFetch | vegas-score/fetchers/economic.py:95-113 | a failed request is passed on; a status other than REQUEST_SUCCEEDED raises "BLS error: " with the message or status; a succeeded reply gives `resp["Results"]["series"][0]["data"]` exactly when that data is truthy, raises the no-data message when it is empty, and is malformed when the path is missing |
| Economic.LatestOf | vegas-score/fetchers/economic.py:120-123 | reads iff data[0] is an object with a float value, a periodName and a year; then the value is `float(data[0]["value"])` and the period is "periodName year" of data[0]; any other data is malformed |
| Economic.PriorEntries | vegas-score/fetchers/economic.py:138-142 | the comprehension succeeds iff every entry has a year and, when the year matches, both periods exist; it keeps the input entries of the prior year and the same period; empty iff there is none; its head is the first such entry |
| Economic.PriorYearOf | vegas-score/fetchers/economic.py:140 | succeeds iff the latest entry has a year that reads as an int, and then the prior year's text parses to that year − 1; otherwise malformed |
| Economic.ValueChange | vegas-score/fetchers/economic.py:145 | succeeds iff both entries have a value that reads as a float, and the change is the latest value minus the earlier one |
| Economic.YoyChange | vegas-score/fetchers/economic.py:137-146 | errors are malformed; no change iff no entry has the prior year and the same period; otherwise the change against the first such entry |
| Economic.YoyText | vegas-score/fetchers/economic.py:143-146 | "" iff there is no change; otherwise the text starts with the change's sign, "+" for zero |
| Economic.BlsIndicator | vegas-score/fetchers/economic.py:116-186 | an indicator reads iff the series fetch succeeds and its latest entry reads, and is then built from that entry; a fetch error is passed on, an unreadable entry is malformed |
| Economic.TotalEmploymentOf | vegas-score/fetchers/economic.py:128-151 | reads iff the fetch succeeds, the latest entry reads and the YoY comparison reads; then the latest value and period with the year-over-year change; a fetch error is passed on, anything else is malformed |
| Economic.FetchMortgage | vegas-score/fetchers/economic.py:258-276 | no FRED key raises the key message before any request; a failed request is passed on; absent or empty observations raise "No FRED data"; a reading exists iff the first observation has a float value and a date, and is that value and date |
| Economic.NoObservations | vegas-score/fetchers/economic.py:273-276 | a body without observations, or with an empty list of them, raises "No FRED data" |
| Economic.SeriesData | vegas-score/fetchers/economic.py:110 | `resp["Results"]["series"][0]["data"]` reads iff every step of the path exists, and is that value; otherwise malformed |
| Economic.YoyChangeReads | vegas-score/fetchers/economic.py:137-146 | the YoY comparison succeeds exactly when the latest year reads, the comprehension can test every entry, and the latest and the first prior entry both have float values |
| Economic.BlsSucceedsOnData | vegas-score/fetchers/economic.py:108-113 | a REQUEST_SUCCEEDED reply whose series carries non-empty data gives exactly that data |
| Economic.IndicatorTakesFirst | vegas-score/fetchers/economic.py:116-125 | every BLS indicator of a succeeded, readable series is built from data[0]'s value and "periodName year" |
| Economic.WellFormedSeriesReads | vegas-score/fetchers/economic.py:135-146 | a series of entries with float values, years and periods, whose latest has an int year, reads its latest entry and its YoY change, and the change is absent exactly when no prior-year entry of the same period exists |
| Economic.TotalEmploymentReads | vegas-score/fetchers/economic.py:128-151 | total employment of a well-formed series is data[0]'s value and period with the YoY change, and has no change (`yoy_change` "") exactly when there is no prior-year entry of the same period |
| Economic.EconomyOutcomes | vegas-score/fetchers/economic.py:48-58 | one outcome per source, in the listed order |
| Economic.FetchEconomy | vegas-score/fetchers/economic.py:45-72 | `fetch_all` stores each source's entry under its key and prints one status line per source unless quiet |
| Economic.EconomyEntries | vegas-score/fetchers/economic.py:59-66 | every source has its own entry, holding its reading or its error, whatever the other sources did |
| Economic.MortgageNeedsKey | vegas-score/fetchers/economic.py:261-262 | without a FRED key the mortgage entry is the key error |
| BookmarkLoader.Clean | create-instapaper/create_instapaper/io_utils.py:124-128 | None, or text that is blank once stripped, gives None; otherwise the stripped text, which is non-empty and trimmed |
| BookmarkLoader.CleanIdempotent | create-instapaper/create_instapaper/io_utils.py:124-128 | cleaning twice is cleaning once |
| BookmarkLoader.CleanField | create-instapaper/create_instapaper/io_utils.py:69-71 | an absent or null field is None, a string is cleaned, and any other type raises |
| BookmarkLoader.BookmarkFromRow | create-instapaper/create_instapaper/io_utils.py:62-72 | raises "Encountered a row without a URL." iff the url is absent, falsy or blank once stripped; otherwise the url is stripped and non-empty and the other three fields are cleaned |
| BookmarkLoader.RowRoundTrip | create-instapaper/create_instapaper/io_utils.py:62-72 | reading back the row of a clean request gives that request |
| BookmarkLoader.RowRequestIsClean | create-instapaper/create_instapaper/io_utils.py:62-72 | every request read from a row is clean |
| BookmarkLoader.StripAll | create-instapaper/create_instapaper/io_utils.py:102 | each segment stripped, in order |
| BookmarkLoader.TextLine | create-instapaper/create_instapaper/io_utils.py:99-116 | a line is skipped iff it is blank once stripped or starts with "#"; a request from a line is clean |
| BookmarkLoader.LineFields | create-instapaper/create_instapaper/io_utils.py:103-116 | segment 0 is the url and an empty one is an error; segments 1-3 are title, description and folder id, None when absent, extra segments ignored |
| BookmarkLoader.FormatLineJoins | create-instapaper/create_instapaper/io_utils.py:102 | four fields joined by '\|' are the written line |
| BookmarkLoader.FormatLineTrimmed | create-instapaper/create_instapaper/io_utils.py:99 | a line written from a trimmed url and folder id is unchanged by stripping |
| BookmarkLoader.FourFields | create-instapaper/create_instapaper/io_utils.py:108-116 | four stripped segments are read as the four fields, each cleaned |
| BookmarkLoader.TextLineOfFormat | create-instapaper/create_instapaper/io_utils.py:96-121 | a line written as "url\|title\|description\|folder" is read back as those fields, each cleaned; so "https://example.com\|Title\|Desc\|123" gives folder id "123" |
| BookmarkLoader.ParseLinesAt | create-instapaper/create_instapaper/io_utils.py:98-102 | each line is read on its own |
| BookmarkLoader.RecordsCount | create-instapaper/create_instapaper/io_utils.py:117-121 | one bookmark per request line |
| BookmarkLoader.RecordsMatchLines | create-instapaper/create_instapaper/io_utils.py:98-121 | each bookmark carries its own line's number, the file and that line's request |
| BookmarkLoader.RecordsInLineOrder | create-instapaper/create_instapaper/io_utils.py:98 | bookmarks come in increasing line order |
| BookmarkLoader.LoadLinesOk | create-instapaper/create_instapaper/io_utils.py:96-121 | a text file loads iff no line has an empty url, and then gives exactly the bookmarks of its request lines |
| BookmarkLoader.LoadLinesFirstError | create-instapaper/create_instapaper/io_utils.py:104-107 | a failed text load raises "Missing URL on line N of name." for the first such line |
| BookmarkLoader.LoadLinesStep | create-instapaper/create_instapaper/io_utils.py:99-121 | one line of the loop: a missing url ends the load, a request is appended, a skipped line adds nothing |
| BookmarkLoader.ReadLine | create-instapaper/create_instapaper/io_utils.py:99-116 | reading line i gives that line's result |
| BookmarkLoader.LoadFromText | create-instapaper/create_instapaper/io_utils.py:96-121 | the loop over lines numbered from 1 gives exactly the text load |
| BookmarkLoader.ItemResult | create-instapaper/create_instapaper/io_utils.py:88-92 | a record that is not an object raises the "JSON items must be objects" error; an object is read as a row |
| BookmarkLoader.ItemResultsAt | create-instapaper/create_instapaper/io_utils.py:87-92 | each record is read on its own |
| BookmarkLoader.LoadItemsOk | create-instapaper/create_instapaper/io_utils.py:57-59 | a record load succeeds iff every record gives a request, and then gives them in order, numbered from the first number |
| BookmarkLoader.LoadItemsFirstError | create-instapaper/create_instapaper/io_utils.py:57-59 | a failed record load raises the error of the first bad record |
| BookmarkLoader.LoadItemsStep | create-instapaper/create_instapaper/io_utils.py:57-59 | one record of the loop: an error ends the load, a request is appended |
| BookmarkLoader.ReadItem | create-instapaper/create_instapaper/io_utils.py:88-92 | reading record i gives that record's result |
| BookmarkLoader.LoadEntries | create-instapaper/create_instapaper/io_utils.py:57-59 | the loop shared by the CSV and JSON loaders gives exactly the record load |
| BookmarkLoader.LoadEach | create-instapaper/create_instapaper/io_utils.py:57-59 | the loop over the records, given each record's result, stops at the first bad record and otherwise numbers the bookmarks from the first line |
| BookmarkLoader.CsvRecord | create-instapaper/create_instapaper/io_utils.py:54 | a CSV row is an object with the same keys and string values |
| BookmarkLoader.CsvRecords | create-instapaper/create_instapaper/io_utils.py:57 | one record per CSV row, in order |
| BookmarkLoader.LoadCsv | create-instapaper/create_instapaper/io_utils.py:52-59 | a header without "url" raises "CSV input must contain a 'url' column."; otherwise the rows load as records numbered from 2 |
| BookmarkLoader.LoadFromCsv | create-instapaper/create_instapaper/io_utils.py:52-59 | the CSV loader gives exactly the CSV load |
| BookmarkLoader.LoadJson | create-instapaper/create_instapaper/io_utils.py:75-93 | a list, or a dict's "items" list, loads as records numbered from 1; a dict without "items", and a number, a boolean or null as the document or as a dict's "items", raise "JSON input must be an iterable of items."; a string or dict in the items' place is iterated, so an empty one loads nothing and any other raises "JSON items must be objects containing at least a 'url' field." |
| BookmarkLoader.LoadFromJson | create-instapaper/create_instapaper/io_utils.py:75-93 | the JSON loader gives exactly the JSON load |
| BookmarkLoader.LoaderForSuffix | create-instapaper/create_instapaper/io_utils.py:40-49 | ".csv" is CSV, ".json" is JSON, ".txt" or no suffix is text, iff; anything else raises "Unsupported input format" naming it |
| BookmarkLoader.LowerLastDot | create-instapaper/create_instapaper/io_utils.py:36 | lower-casing never moves the last dot |
| BookmarkLoader.SuffixOfLower | create-instapaper/create_instapaper/io_utils.py:36 | the suffix of a lower-cased name is the lower-cased suffix |
| BookmarkLoader.FormatIgnoresCase | create-instapaper/create_instapaper/io_utils.py:36 | format dispatch does not depend on the case of the name |
| BookmarkLoader.RequestsOf | create-instapaper/create_instapaper/io_utils.py:37 | the requests of the loaded bookmarks, in order |
| BookmarkLoader.LoadPath | create-instapaper/create_instapaper/io_utils.py:26-37 | an unsupported suffix raises its error; otherwise the requests of the file's loaded bookmarks, in order |
| BookmarkLoader.LoadWith | create-instapaper/create_instapaper/io_utils.py:36-37 | running the chosen loader gives exactly its load |
| BookmarkLoader.LoadFromPath | create-instapaper/create_instapaper/io_utils.py:26-37 | `load_from_path` gives exactly the path load |
| UploadClient.ToPayload | create-instapaper/create_instapaper/client.py:38-46 | "url" is always present and holds the url; "title", "description" and "folder_id" are present iff the field is truthy, with its value; no other key |
| UploadClient.IndexOf | create-instapaper/create_instapaper/client.py:124 | the first position of the character, None iff it does not occur |
| UploadClient.ParsePiece | create-instapaper/create_instapaper/client.py:124 | a pair read from a piece has a key without '=' and a non-empty value, and the piece is "key=value" |
| UploadClient.PieceOfPair | create-instapaper/create_instapaper/client.py:124 | a piece written from a name without '=' and a non-empty value parses back to that name and value |
| UploadClient.FirstValue | create-instapaper/create_instapaper/client.py:126-127 | the value of some pair with that name; None iff no pair has it |
| UploadClient.Pieces | create-instapaper/create_instapaper/client.py:124 | each pair written "key=value", in order |
| UploadClient.ParsePiecesOfPieces | create-instapaper/create_instapaper/client.py:124 | pieces written from encodable pairs parse back to the pairs |
| UploadClient.QueryPairsRoundTrip | create-instapaper/create_instapaper/client.py:124 | parsing a form-encoded body of encodable pairs gives the pairs back |
| UploadClient.ParseAccessTokenResponse | create-instapaper/create_instapaper/client.py:117-133 | a status other than 200 fails with the authentication error and that status; a 200 body succeeds iff it has non-empty "oauth_token" and "oauth_token_secret" values, which are returned, and fails with the could-not-parse error otherwise |
| UploadClient.ParsedValuesNonEmpty | create-instapaper/create_instapaper/client.py:124-127 | a value found in a parsed body is never empty (blank values are dropped) |
| UploadClient.ParsePiecesNonEmpty | create-instapaper/create_instapaper/client.py:124 | no parsed pair has an empty value |
| UploadClient.AccessTokenRoundTrip | create-instapaper/create_instapaper/client.py:117-133 | a 200 reply whose body encodes a token and a secret gives that token and secret |
| UploadClient.AccessTokenExample | create-instapaper/create_instapaper/client.py:117-133 | "oauth_token=a&oauth_token_secret=b" gives ("a", "b") |
| UploadClient.AddResult | create-instapaper/create_instapaper/client.py:158-164 | a 200 reply returns its JSON body; any other raises the add-failed error with that status |
| UploadClient.SessionFailure | create-instapaper/create_instapaper/client.py:177-179 | a signed-in client never fails here; otherwise the session fails iff the access-token reply does not parse |
| UploadClient.SessionTokens | create-instapaper/create_instapaper/client.py:92-114 | the token and secret after making sure of a session: kept when signed in or when the reply does not parse, otherwise the parsed pair |
| UploadClient.BulkOutcome | create-instapaper/create_instapaper/client.py:166-172 | posts at most one payload per request |
| UploadClient.BulkOkInOrder | create-instapaper/create_instapaper/client.py:166-172 | a successful bulk add returns one body per request, in request order, after every reply was 200 and every request was posted |
| UploadClient.BulkStopsAtFirstFailure | create-instapaper/create_instapaper/client.py:166-172 | once signed in, the first non-200 reply k ends the run with its status after posting requests 0..k |
| UploadClient.Payloads | create-instapaper/create_instapaper/client.py:155 | one payload per request, in order |
| UploadClient.BulkFailure | create-instapaper/create_instapaper/client.py:166-179 | a session failure ends the run before anything is posted; a first reply that is not 200 ends it after one post |
| UploadClient.BulkStep | create-instapaper/create_instapaper/client.py:170-171 | a 200 reply to the first request prepends its body to the rest of the run |
| UploadClient.InstapaperClient.constructor | create-instapaper/create_instapaper/client.py:69-87 | keeps the four credentials, with no access token and nothing posted |
| UploadClient.InstapaperClient.Create | create-instapaper/create_instapaper/client.py:78-79 | refuses with "All Instapaper credentials must be provided." iff some credential is empty; otherwise a fresh client that is not signed in |
| UploadClient.InstapaperClient.Authenticate | create-instapaper/create_instapaper/client.py:92-114 | stores the parsed token and secret on success; on failure returns the parse error and leaves the tokens as they were |
| UploadClient.InstapaperClient.EnsureSession | create-instapaper/create_instapaper/client.py:177-187 | a signed-in client is unchanged; otherwise it authenticates, succeeding iff the reply parses, and then holds the parsed token and secret; the tokens afterwards are `SessionTokens` of the tokens before |
| UploadClient.InstapaperClient.AddBookmark | create-instapaper/create_instapaper/client.py:138-164 | after the session, posts the request's payload and returns the reply's result; a session failure posts nothing; the tokens afterwards are those the session leaves, an existing token kept |
| UploadClient.InstapaperClient.BulkAdd | create-instapaper/create_instapaper/client.py:166-172 | returns the bulk outcome and has posted exactly the payloads of the requests it reached; the first add signs the client in unless the session fails, an existing token is kept, and no requests or a failed session leave the tokens as they were |
| UploadClient.InstapaperClient.BulkRound | create-instapaper/create_instapaper/client.py:170-171 | one add of the run: a failure is the outcome of the rest of the run, with the payloads posted up to it; a success joins its body to the results, posts one payload more, and leaves the run of the requests after it; the client is signed in after any add whose session holds |
| UploadClient.PostedAtFailure | create-instapaper/create_instapaper/client.py:166-172 | the posted list at an early exit is the prefix up to the failing request |
| UploadClient.PostedAfterAdd | create-instapaper/create_instapaper/client.py:170-171 | one more successful add extends the posted list by that request's payload |
| UploadClient.PayloadsSnoc | create-instapaper/create_instapaper/client.py:155 | the payloads of one more request are the earlier payloads plus its own |
| UploadCli.FileLoads | create-instapaper/create_instapaper/cli.py:100-105 | one load per input path, in order |
| UploadCli.FileLoadsAt | create-instapaper/create_instapaper/cli.py:100-105 | load i is the load of input i |
| UploadCli.UrlRequests | create-instapaper/create_instapaper/cli.py:107-113 | one request per --url, each with that url and the shared title, description and folder id |
| UploadCli.FromFilesInOrder | create-instapaper/create_instapaper/cli.py:100-105 | when every input exists and loads, the requests are the first file's followed by the rest |
| UploadCli.MissingInputFails | create-instapaper/create_instapaper/cli.py:102-103 | the first input that does not exist, after inputs that load, fails with "Input file '...' does not exist." naming it |
| UploadCli.CollectedEndsWithUrls | create-instapaper/create_instapaper/cli.py:99-113 | collection succeeds iff the files do; the file requests come first and the --url requests last, in order |
| UploadCli.FromFilesStep | create-instapaper/create_instapaper/cli.py:100-105 | one input of the loop: requests gathered so far stay in front |
| UploadCli.ReadInput | create-instapaper/create_instapaper/cli.py:101-104 | reading one input gives its load |
| UploadCli.RequestsFromFiles | create-instapaper/create_instapaper/cli.py:100-105 | reading every input gives exactly the file requests |
| UploadCli.ReadInputs | create-instapaper/create_instapaper/cli.py:100-105 | the loop over inputs gives exactly the file requests of the loads |
| UploadCli.AddUrlRequests | create-instapaper/create_instapaper/cli.py:107-113 | appends the --url requests to those gathered |
| UploadCli.CollectRequests | create-instapaper/create_instapaper/cli.py:99-113 | gives exactly the collected requests or the first load error |
| UploadCli.EnvScanTakesSet | create-instapaper/create_instapaper/cli.py:117-124 | a credential is taken iff it is a field whose variable is set non-empty, with that value |
| UploadCli.EnvScanListsUnset | create-instapaper/create_instapaper/cli.py:117-124 | a field is missing iff its variable is unset or empty |
| UploadCli.EnvScanMissingInOrder | create-instapaper/create_instapaper/cli.py:119-124 | the missing fields are listed in field order |
| UploadCli.PromptFillsMissing | create-instapaper/create_instapaper/cli.py:139-155 | prompting succeeds iff every missing field gets a non-empty answer, and then each missing field holds its answer and the others are kept |
| UploadCli.PromptStopsAtEmptyAnswer | create-instapaper/create_instapaper/cli.py:153-154 | the first empty answer exits with "<prompt> is required to continue." for that field |
| UploadCli.PromptForCredentials | create-instapaper/create_instapaper/cli.py:139-155 | the prompt loop gives exactly the prompted credentials |
| UploadCli.CredentialsComplete | create-instapaper/create_instapaper/cli.py:116-136 | on success all four credentials are present and non-empty; with --no-prompt an unset variable exits with the missing-credentials message; with all set the environment values are used |
| UploadCli.ScanEnvironment | create-instapaper/create_instapaper/cli.py:117-124 | the environment loop gives exactly the scan |
| UploadCli.CreateClient | create-instapaper/create_instapaper/cli.py:116-136 | fails iff the credentials fail, with that message; otherwise a fresh client holding the four credentials, not signed in |
| UploadCli.DryRunLine | create-instapaper/create_instapaper/cli.py:161-165 | "- " and the url, then " (title: t)" iff the title is truthy, then " [folder: f]" iff the folder id is truthy; just "- " and the url when neither is set |
| UploadCli.DryRunIgnoresDescription | create-instapaper/create_instapaper/cli.py:161-165 | the description never appears in a dry-run line |
| UploadCli.DryRunOutput | create-instapaper/create_instapaper/cli.py:158-166 | the header line, then one line per request in order |
| UploadCli.Replies | create-instapaper/create_instapaper/cli.py:88 | one service reply per request |
| UploadCli.RunCli | create-instapaper/create_instapaper/cli.py:70-96 | a load error or no URLs is a usage error with nothing sent; a dry run prints the listing and sends nothing; a credentials failure exits with its message; otherwise the bulk add's outcome, having sent the payloads it reached |
| ExportIo.CloseFrom | instapaper-extract/instapaper_extract/io_utils.py:33 | the first '>' at or after the start, or None when there is none |
| ExportIo.ConsNoTag | instapaper-extract/instapaper_extract/io_utils.py:33 | a character in front of tag-free text keeps it tag-free unless it opens a tag |
| ExportIo.StripTags | instapaper-extract/instapaper_extract/io_utils.py:33 | removing tags never lengthens the text |
| ExportIo.StripTagsKeepsText | instapaper-extract/instapaper_extract/io_utils.py:33 | every character left was in the input; text that does not start with '<' keeps its first character; text without '<' is unchanged |
| ExportIo.StripTagsLeavesNoTag | instapaper-extract/instapaper_extract/io_utils.py:33 | no "<...>" with a non-empty inside is left |
| ExportIo.MatchReference | instapaper-extract/instapaper_extract/io_utils.py:35 | a reference found starts with '&' and fits in the text |
| ExportIo.MatchReferenceFinds | instapaper-extract/instapaper_extract/io_utils.py:35 | the first reference of the table the text starts with is the one replaced |
| ExportIo.MatchReferenceMisses | instapaper-extract/instapaper_extract/io_utils.py:35 | text that starts with no reference of the table matches nothing |
| ExportIo.ReferenceAt | instapaper-extract/instapaper_extract/io_utils.py:35 | a recognised reference starts with '&' and fits in the text |
| ExportIo.UnescapePlain | instapaper-extract/instapaper_extract/io_utils.py:35 | text without '&' is left alone |
| ExportIo.NotStartsAt | instapaper-extract/instapaper_extract/io_utils.py:35 | text that differs from a prefix at some position does not start with it |
| ExportIo.StartsWithConcat | instapaper-extract/instapaper_extract/io_utils.py:35 | a text starts with anything it is built from |
| ExportIo.UnescapeChar | instapaper-extract/instapaper_extract/io_utils.py:35 | an escaped character unescapes to itself |
| ExportIo.UnescapeEscape | instapaper-extract/instapaper_extract/io_utils.py:35 | unescaping the escape of any text gives that text back |
| ExportIo.SingleSpacedCons | instapaper-extract/instapaper_extract/io_utils.py:37 | a visible character in front of single-spaced text keeps it single-spaced |
| ExportIo.CollapseSpacing | instapaper-extract/instapaper_extract/io_utils.py:37 | the result of collapsing is single-spaced, empty iff the input is, and starts with a space iff the input does |
| ExportIo.VisibleConcat | instapaper-extract/instapaper_extract/io_utils.py:37 | the visible characters of a concatenation are those of each part |
| ExportIo.VisibleOfSpaces | instapaper-extract/instapaper_extract/io_utils.py:37 | whitespace has no visible characters |
| ExportIo.CollapseKeepsText | instapaper-extract/instapaper_extract/io_utils.py:37 | collapsing whitespace keeps every visible character, in order |
| ExportIo.StripSlice | instapaper-extract/instapaper_extract/io_utils.py:38 | stripping keeps the slice between the first and last visible character |
| ExportIo.SingleSpacedSlice | instapaper-extract/instapaper_extract/io_utils.py:38 | a slice of single-spaced text is single-spaced |
| ExportIo.StripKeepsText | instapaper-extract/instapaper_extract/io_utils.py:38 | stripping keeps every visible character, in order |
| ExportIo.StripKeepsSpacing | instapaper-extract/instapaper_extract/io_utils.py:38 | stripping single-spaced text leaves it single-spaced |
| ExportIo.CleanHtml | instapaper-extract/instapaper_extract/io_utils.py:19-38 | empty text gives "" |
| ExportIo.CleanHtmlShape | instapaper-extract/instapaper_extract/io_utils.py:19-38 | the result is trimmed and single-spaced, and keeps exactly the visible characters of the unescaped, tag-free input; text without '<' or '&' keeps its visible characters |
| ExportIo.EscapeHasNoTagOpen | instapaper-extract/instapaper_extract/io_utils.py:33 | escaped text contains no '<' |
| ExportIo.EscapedTextSurvives | instapaper-extract/instapaper_extract/io_utils.py:19-38 | cleaning the escape of trimmed, single-spaced text gives that text back, so "&lt;world&gt;" survives tag removal |
| ExportIo.CollapseSingleSpaced | instapaper-extract/instapaper_extract/io_utils.py:37 | single-spaced text is left alone by collapsing |
| ExportIo.BookmarkFieldnames | instapaper-extract/instapaper_extract/io_utils.py:69-80 | the seven bookmark columns, plus "full_text" last iff text is included |
| ExportIo.FullTextColumn | instapaper-extract/instapaper_extract/io_utils.py:96-97 | the cleaned full text, missing text as "", iff text is included |
| ExportIo.BookmarkRow | instapaper-extract/instapaper_extract/io_utils.py:86-99 | one cell per field name: id, title, url, description, time added, progress, "1"/"0" for starred, then the cleaned text when included |
| ExportIo.BookmarksTable | instapaper-extract/instapaper_extract/io_utils.py:82-99 | the header, then one row per bookmark in order |
| ExportIo.ExportBookmarksToCsv | instapaper-extract/instapaper_extract/io_utils.py:41-105 | writes nothing iff there are no bookmarks; otherwise exactly the bookmarks table |
| ExportIo.HighlightRow | instapaper-extract/instapaper_extract/io_utils.py:147-155 | bookmark id, highlight id, cleaned text, cleaned note or "", time, position |
| ExportIo.HighlightsTable | instapaper-extract/instapaper_extract/io_utils.py:134-155 | the six highlight columns, then one row per highlight in order |
| ExportIo.ExportHighlightsToCsv | instapaper-extract/instapaper_extract/io_utils.py:108-161 | writes nothing iff there are no highlights; otherwise exactly the highlights table |
| ExportIo.EntryOfHighlight | instapaper-extract/instapaper_extract/io_utils.py:193-199 | keeps the id, time and position, cleans the text, and has a note iff the highlight's note is truthy |
| ExportIo.GroupOfSelects | instapaper-extract/instapaper_extract/io_utils.py:189-199 | a bookmark's group holds the entry of every highlight of that bookmark and of no other, one per highlight |
| ExportIo.JsonDocument | instapaper-extract/instapaper_extract/io_utils.py:201-230 | the totals count the inputs and entry k is bookmark k's with its own group of highlights |
| ExportIo.ExportToJson | instapaper-extract/instapaper_extract/io_utils.py:164-239 | the grouping loop and the bookmark loop give exactly the JSON document |
| ExportIo.GroupHighlights | instapaper-extract/instapaper_extract/io_utils.py:189-199 | a key is present only for an id with highlights, holding that id's group in input order |
| ExportIo.LastSlashOfJoin | instapaper-extract/instapaper_extract/io_utils.py:261 | a name without '/' joined to a directory is the file name of the result |
| ExportIo.DirectoryOf | instapaper-extract/instapaper_extract/io_utils.py:256-261 | a path is its directory followed by its file name |
| ExportIo.LastDotOf | instapaper-extract/instapaper_extract/io_utils.py:258 | a suffix with one dot is the suffix of anything ending with it |
| ExportIo.HighlightsPathShape | instapaper-extract/instapaper_extract/io_utils.py:242-261 | the result stays in the same directory, its name is the stem, "_highlights" and the suffix, and a suffix survives |
| ExportIo.RenamedInDirectory | instapaper-extract/instapaper_extract/io_utils.py:256-261 | renaming inside a directory: the new name is the last component and a suffix survives |
| ExportIo.HighlightsPathOf | instapaper-extract/instapaper_extract/io_utils.py:252-261 | "dir/stem.ext" becomes "dir/stem_highlights.ext", so "data/export.csv" gives "data/export_highlights.csv" |
| Extractor.OrEmpty | instapaper-extract/instapaper_extract/client.py:166-168 | a present string is kept; a missing one is "" |
| Extractor.ToBookmarkData | instapaper-extract/instapaper_extract/client.py:164-172 | keeps the id; title, url and description default to ""; time added to 0 and progress to 0.0 when absent; starred iff present and true; no full text |
| Extractor.ToHighlightData | instapaper-extract/instapaper_extract/client.py:225-232 | keeps both ids and the note; text defaults to ""; time and position to 0 when absent |
| Extractor.ConvertAll | instapaper-extract/instapaper_extract/client.py:162-172 | one converted bookmark per raw bookmark, in order |
| Extractor.ConvertBookmarks | instapaper-extract/instapaper_extract/client.py:162-174 | the conversion loop gives exactly the converted bookmarks |
| Extractor.HighlightsOf | instapaper-extract/instapaper_extract/client.py:205-239 | a failed fetch gives no highlights; otherwise one converted highlight per raw one, in order |
| Extractor.NewStarred | instapaper-extract/instapaper_extract/client.py:149-150 | keeps exactly the starred bookmarks whose id is not already present |
| Extractor.MergedKeepsCategories | instapaper-extract/instapaper_extract/client.py:124-156 | unread and archive come first and whole; what follows are exactly the starred bookmarks whose id neither has; every id of the three categories is present |
| Extractor.Available | instapaper-extract/instapaper_extract/client.py:127-156 | a category whose fetch failed, or any category without a session, contributes nothing |
| Extractor.FirstByIdKeepsFirst | instapaper-extract/instapaper_extract/client.py:271-277 | the deduplicated list has distinct ids, the same set of ids, only input bookmarks, and keeps every bookmark whose id did not occur before it |
| Extractor.Deduplicate | instapaper-extract/instapaper_extract/client.py:271-277 | the seen-set loop gives exactly the first bookmark of each id |
| Extractor.AllHighlightsComplete | instapaper-extract/instapaper_extract/client.py:279-283 | a highlight is returned iff it is among the highlights of one of the bookmarks |
| Extractor.FirstWithId | instapaper-extract/instapaper_extract/client.py:194-196 | the first bookmark with that id, None iff no bookmark has it |
| Extractor.FindText | instapaper-extract/instapaper_extract/client.py:194-198 | the text of the first bookmark with the id, or "" when none has it |
| Extractor.GetBookmarkHighlights | instapaper-extract/instapaper_extract/client.py:205-239 | the conversion loop gives exactly the bookmark's highlights |
| Extractor.InstapaperExtractor.constructor | instapaper-extract/instapaper_extract/client.py:58-78 | keeps the four credentials, with no session |
| Extractor.InstapaperExtractor.Authenticate | instapaper-extract/instapaper_extract/client.py:80-99 | always leaves a session; succeeds iff the login does, and fails with the authentication error otherwise |
| Extractor.InstapaperExtractor.Client | instapaper-extract/instapaper_extract/client.py:101-106 | an existing session is returned unchanged; otherwise one is made, logged in iff the login succeeds |
| Extractor.InstapaperExtractor.GetBookmarks | instapaper-extract/instapaper_extract/client.py:128 | a category is returned only through a logged-in session |
| Extractor.InstapaperExtractor.GetAllBookmarks | instapaper-extract/instapaper_extract/client.py:108-174 | the converted merge of the categories available to the session |
| Extractor.InstapaperExtractor.GetBookmarkText | instapaper-extract/instapaper_extract/client.py:176-203 | the text of the first bookmark with the id among all three categories, or "" when none has it or a fetch fails |
| Extractor.InstapaperExtractor.GetAllHighlights | instapaper-extract/instapaper_extract/client.py:241-288 | the highlights of each distinct bookmark of the available categories, in order |
| ExtractCli.ApplyFlag | instapaper-extract/instapaper_extract/cli.py:69-130 | each flag sets only its own option: -o the path, --format the format, --highlights and --no-highlights the highlights switch, and each store-true flag its switch |
| ExtractCli.ParseFlagsDefaults | instapaper-extract/instapaper_extract/cli.py:69-96 | without the flag the output is "instapaper_bookmarks.csv", the format CSV, and highlights on |
| ExtractCli.ParseFlagsSwitches | instapaper-extract/instapaper_extract/cli.py:84-130 | --no-text, --highlights-only, --no-prompt and --dry-run are set iff given |
| ExtractCli.LastHighlightsFlagWins | instapaper-extract/instapaper_extract/cli.py:91-103 | the last of --highlights and --no-highlights decides |
| ExtractCli.EnvValues | instapaper-extract/instapaper_extract/cli.py:152-155 | the four environment values, in ENV_VARS order, unset as "" |
| ExtractCli.MissingOfLists | instapaper-extract/instapaper_extract/cli.py:157-165 | a label is listed iff its value is empty; nothing is listed iff every value is set |
| ExtractCli.MissingOfFour | instapaper-extract/instapaper_extract/cli.py:157-165 | the missing labels "API Key", "API Secret", "Username", "Password", in that order, each iff its value is empty |
| ExtractCli.ListMissing | instapaper-extract/instapaper_extract/cli.py:157-165 | the four checks give exactly the missing labels |
| ExtractCli.GetCredentials | instapaper-extract/instapaper_extract/cli.py:135-194 | the check and the prompts give exactly the credentials outcome |
| ExtractCli.CredentialsFromEnvironment | instapaper-extract/instapaper_extract/cli.py:152-194 | with all four variables set, they are returned whatever the prompt setting and no answer is used |
| ExtractCli.MissingRefusedWithoutPrompt | instapaper-extract/instapaper_extract/cli.py:167-171 | with prompting off, a missing credential is refused with the message naming every missing one |
| ExtractCli.PromptAnswersOnlyFillGaps | instapaper-extract/instapaper_extract/cli.py:173-194 | with prompting on there is no error, and a credential set in the environment does not depend on the answers |
| ExtractCli.KeepHighlightedMembers | instapaper-extract/instapaper_extract/cli.py:294-296 | a bookmark is kept iff it has a highlighted id |
| ExtractCli.KeepHighlightedConcat | instapaper-extract/instapaper_extract/cli.py:296 | the filter keeps order: filtering a concatenation concatenates the filtered parts |
| ExtractCli.FetchBookmarksWithText | instapaper-extract/instapaper_extract/cli.py:226-252 | every bookmark's full text is set to None and nothing else changes |
| ExtractCli.NoTextGivesEmptyColumn | instapaper-extract/instapaper_extract/cli.py:226-252 | a bookmark without full text has an empty full_text cell |
| ExtractCli.ExitCode | instapaper-extract/instapaper_extract/cli.py:355-371 | 1 iff the run failed, 0 otherwise |
| ExtractCli.DryRunLines | instapaper-extract/instapaper_extract/cli.py:309-320 | the dry-run banner first and "Include full text: ..." last, with a highlights line iff there are highlights |
| ExtractCli.RunExtract | instapaper-extract/instapaper_extract/cli.py:255-371 | a credentials error or a failed login ends the run with nothing written; otherwise the outcome after login: no bookmarks, the dry-run report, or the export |
| ExtractCli.Export | instapaper-extract/instapaper_extract/cli.py:322-347 | writes exactly the files of the export step and reports its failure |
| ExtractCli.ExportFilesPresence | instapaper-extract/instapaper_extract/cli.py:322-347 | a successful CSV export writes the bookmarks file iff there are bookmarks and the highlights file iff there are highlights; a JSON export writes one document |
| ExtractCli.ExportFilesFailure | instapaper-extract/instapaper_extract/cli.py:322-347 | a failed export names a path it could not write, either the output or the highlights path |
| ExtractCli.NoHighlightsUnlessAsked | instapaper-extract/instapaper_extract/cli.py:286-296 | without --highlights or --highlights-only no highlights are fetched and every bookmark is selected |
| ExtractCli.HighlightsOnlySelects | instapaper-extract/instapaper_extract/cli.py:293-296 | with --highlights-only the selection is exactly the bookmarks with at least one highlight |
| ExtractCli.FullTextColumnEmpty | instapaper-extract/instapaper_extract/cli.py:301-306 | every full_text cell of the exported bookmarks table is empty |
| ExtractArticles.GetScriptCredentials | instapaper-extract/extract_articles.py:34-64 | the script's credentials are those of the package's credential step with prompting on: environment values where set, answers for the rest |
| ExtractArticles.FetchAllBookmarks | instapaper-extract/extract_articles.py:67-107 | unread, then archive, then the starred bookmarks whose id is not already present, each failed category contributing nothing |
| ExtractArticles.FetchedCategories | instapaper-extract/extract_articles.py:67-107 | unread and archive are kept whole and first, what follows has ids neither has, and every id of the three categories is present |
| ExtractArticles.ArticleText | instapaper-extract/extract_articles.py:169-176 | the cleaned text, or "" when the text cannot be fetched |
| ExtractArticles.ArticleRow | instapaper-extract/extract_articles.py:147-178 | one cell per field name |
| ExtractArticles.ArticleRowAgainstPackage | instapaper-extract/extract_articles.py:159-167 | the script's row agrees with the package's on id, title, url, description and starred, and on time and progress when present; a missing one is an empty cell here and 0 or 0.0 in the package |
| ExtractArticles.ArticleTextColumn | instapaper-extract/extract_articles.py:150-176 | the full_text column is there iff asked for, and an article whose markup is escaped plain text comes back as that text |
| ExtractArticles.ArticlesTable | instapaper-extract/extract_articles.py:146-178 | the header, then one row per article in order |
| ExtractArticles.ArticlesExitCode | instapaper-extract/extract_articles.py:130-180 | 1 iff the login failed, the file could not be opened or the loop crashed; 0 iff nothing was found or the file was written |
| ExtractArticles.TitledPrefix | instapaper-extract/extract_articles.py:156-157 | the articles before the first one without a title: all titled, and the next one untitled |
| ExtractArticles.WriteArticles | instapaper-extract/extract_articles.py:146-178 | the loop finishes iff every article has a title, and writes exactly the rows of the articles before the first untitled one |
| ExtractArticles.ExtractArticlesToCsv | instapaper-extract/extract_articles.py:110-180 | a failed login exits; no article writes nothing; an unwritable file stops the run; an untitled article stops the loop with the rows before it; otherwise the table of every fetched article |
| ExtractArticles.ArticlesRunWrites | instapaper-extract/extract_articles.py:134-180 | nothing is written iff the login worked and no article was fetched; an unwritable file is reported iff there are articles and it cannot be opened; the run crashes iff some fetched article has no title, keeping exactly the rows before the first; a written file has one row per fetched article, all titled |
| ExtractArticles.RunArticles | instapaper-extract/extract_articles.py:183-232 | the credentials step, then the export with full text unless --no-text, to the given output |
| LakeMeadTrends.Sub | lake-mead-data/lake_mead_analyzer.py:165 | a difference exists iff both elevations do (a missing value propagates like NaN) |
| LakeMeadTrends.Diffs | lake-mead-data/lake_mead_analyzer.py:194 | one difference per month: none for the first, and each other month's elevation minus the previous one's |
| LakeMeadTrends.StatusOf | lake-mead-data/lake_mead_analyzer.py:171 | "declining" iff the change is negative, "rising" iff positive, "stable" otherwise |
| LakeMeadTrends.LeadingRunMaximal | lake-mead-data/lake_mead_analyzer.py:202-225 | the leading run of declines is declining throughout and cannot be extended |
| LakeMeadTrends.LeadingRunCovers | lake-mead-data/lake_mead_analyzer.py:221-225 | any declining stretch at the start is no longer than the leading run |
| LakeMeadTrends.LongestRunIsLongest | lake-mead-data/lake_mead_analyzer.py:197-217 | the longest run occurs somewhere, and no declining stretch is longer |
| LakeMeadTrends.LongestDecliningStreak | lake-mead-data/lake_mead_analyzer.py:197-217 | the backward scan with its final check gives exactly the longest run of declines |
| LakeMeadTrends.CurrentDecliningStreak | lake-mead-data/lake_mead_analyzer.py:220-225 | the months counted back from the latest all decline, and the month before them does not |
| LakeMeadTrends.CurrentAtMostLongest | lake-mead-data/lake_mead_analyzer.py:220-238 | the current run is never longer than the longest |
| LakeMeadTrends.FirstMonthNeverDeclines | lake-mead-data/lake_mead_analyzer.py:194-203 | the first month has no difference, so no run covers every month |
| LakeMeadTrends.CountsBounded | lake-mead-data/lake_mead_analyzer.py:243-244 | declining and rising months together are at most the number of differences |
| LakeMeadTrends.Last12 | lake-mead-data/lake_mead_analyzer.py:241-242 | a summary iff there are at least twelve months |
| LakeMeadTrends.Last12Bounded | lake-mead-data/lake_mead_analyzer.py:241-248 | at most eleven of the last twelve months count as declining or rising |
| LakeMeadTrends.DaysInMonth | lake-mead-data/lake_mead_analyzer.py:174 | every month has 28 to 31 days |
| LakeMeadTrends.LastMatch | lake-mead-data/lake_mead_analyzer.py:176-179 | the last index satisfying the test, None iff none does |
| LakeMeadTrends.YearAgoFindsSameMonth | lake-mead-data/lake_mead_analyzer.py:174-179 | in a chronological series that holds the same month a year back, the corrected lookup picks that month |
| LakeMeadTrends.YearAgoAsWrittenSkipsLeapFebruary | lake-mead-data/lake_mead_analyzer.py:174-176 | for February 2025 with February 2024 present, the lookup as written picks January 2024 |
| LakeMeadTrends.YearAgoAsWrittenAgrees | lake-mead-data/lake_mead_analyzer.py:174-176 | outside a February that follows a leap year the lookup as written and the corrected one test the same months |
| LakeMeadTrends.AlertFor | lake-mead-data/lake_mead_analyzer.py:227-234 | a warning iff at least three months decline, naming their number and the first month; a notice iff one or two; none iff zero |
| LakeMeadTrends.YearOverYearOf | lake-mead-data/lake_mead_analyzer.py:173-186 | as written: a comparison iff some month-end is on or before the latest month-end minus one year, and the month compared is such a month |
| LakeMeadTrends.YearOverYearAt | lake-mead-data/lake_mead_analyzer.py:178-181 | a comparison iff a month was found; it names that month, its change is the latest elevation minus that month's, and its status is that change's |
| LakeMeadTrends.YearOverYearIntended | lake-mead-data/lake_mead_analyzer.py:173-186 | corrected: a comparison iff some month is at least twelve months before the latest, and the month compared is such a month |
| LakeMeadTrends.LastMatchAgrees | lake-mead-data/lake_mead_analyzer.py:176-179 | two tests that agree on every month pick the same last month |
| LakeMeadTrends.YearOverYearAsIntended | lake-mead-data/lake_mead_analyzer.py:173-186 | unless the latest month is a February following a leap year, the comparison as written is the corrected one |
| LakeMeadTrends.Reverse | lake-mead-data/lake_mead_analyzer.py:202 | the differences read from the latest back |
| LakeMeadTrends.TrailingRunIsLeadingOfReverse | lake-mead-data/lake_mead_analyzer.py:220-225 | the run counted back from the latest month is the leading run of the reversed differences |
| LakeMeadTrends.LeadingRunOfMaximal | lake-mead-data/lake_mead_analyzer.py:221-225 | a declining stretch at the start that cannot be extended is the leading run |
| LakeMeadTrends.AnalyzeTrends | lake-mead-data/lake_mead_analyzer.py:144-250 | the loop gives exactly the report, with the year-over-year comparison as written; a report iff there are at least two months; the current run is at most the longest, which is shorter than the series; the warning iff the current run is at least three; the historical note iff the longest is at least three |
| TableExporter.FormatCellValue | powerpoint-lib/powerpoint_lib/table_exporter.py:208-211 | None is "", a string is itself, an integer's text parses back to it, a boolean is "True" or "False" |
| TableExporter.FormatColumn | powerpoint-lib/powerpoint_lib/table_exporter.py:181 | one formatted value per cell, in order |
| TableExporter.FormattedFrame | powerpoint-lib/powerpoint_lib/table_exporter.py:179-182 | the names are kept and every column is formatted |
| TableExporter.FormatColumns | powerpoint-lib/powerpoint_lib/table_exporter.py:179-182 | the column-by-column loop gives exactly the formatted frame |
| TableExporter.PlainCellsFormatted | powerpoint-lib/powerpoint_lib/table_exporter.py:179-182 | the formatted frame is well formed and each cell is its value formatted |
| TableExporter.DisplayValues | powerpoint-lib/powerpoint_lib/table_exporter.py:195-201 | one display value per rendered cell, "" when it has none |
| TableExporter.TrimAsWrittenKeepsIndexCell | powerpoint-lib/powerpoint_lib/table_exporter.py:202-203 | with zero data columns, a row holding only its index cell is kept whole, so it is longer than the empty header |
| TableExporter.Trim | powerpoint-lib/powerpoint_lib/table_exporter.py:196-203 | corrected: keeps exactly the last n values, or all when there are fewer |
| TableExporter.TrimAgrees | powerpoint-lib/powerpoint_lib/table_exporter.py:196-203 | the trimming as written and the corrected one agree unless the count is zero and there are values, where the written one keeps everything |
| TableExporter.HeaderOf | powerpoint-lib/powerpoint_lib/table_exporter.py:191-198 | the data's own columns when no header row is rendered; otherwise the last header row's display values, trimmed to its last n values when there are n > 0 data columns and kept whole when there are none |
| TableExporter.HeaderColumns | powerpoint-lib/powerpoint_lib/table_exporter.py:191-198 | the header steps give exactly the styler's header columns |
| TableExporter.BodyOf | powerpoint-lib/powerpoint_lib/table_exporter.py:199-204 | one row per rendered body row: its display values trimmed to the last n when the header has n > 0 names, and kept whole under an empty header |
| TableExporter.DisplayRows | powerpoint-lib/powerpoint_lib/table_exporter.py:199-204 | the loop over the rendered body collects exactly the rows of the body as the styler trims them |
| TableExporter.ExtractDisplayValues | powerpoint-lib/powerpoint_lib/table_exporter.py:189-205 | the header step, the row loop and the frame constructor give exactly the styler's frame |
| TableExporter.RowsFitHeader | powerpoint-lib/powerpoint_lib/table_exporter.py:199-205 | as written: under a header with names no row is wider than it; each row keeps the rightmost cells of its rendered row; under an empty header every row is kept whole |
| TableExporter.BuildFrame | powerpoint-lib/powerpoint_lib/table_exporter.py:205 | a well-formed frame with the header as names and one cell per row in every column |
| TableExporter.Widest | powerpoint-lib/powerpoint_lib/table_exporter.py:205 | the length of the widest row, reached by some row; zero without rows |
| TableExporter.FrameOf | powerpoint-lib/powerpoint_lib/table_exporter.py:205 | `pd.DataFrame` refuses the rows iff some row is wider than the header, or there are rows and all are narrower; the error names the header's length and the inferred width; otherwise the frame is built |
| TableExporter.StylerFrame | powerpoint-lib/powerpoint_lib/table_exporter.py:189-205 | a frame built from a styler is well formed and named by the header |
| TableExporter.CutRowsFrame | powerpoint-lib/powerpoint_lib/table_exporter.py:199-205 | for rows cut as written, the frame is refused iff the header is empty and some rendered row is not, or the header has names, there are rows and every rendered row is narrower |
| TableExporter.StylerFrameRejects | powerpoint-lib/powerpoint_lib/table_exporter.py:189-205 | as written, the styler's frame is refused iff the header is empty and some rendered row is not, or the header has names, there are rows and every rendered row is narrower than it |
| TableExporter.HeaderIntended | powerpoint-lib/powerpoint_lib/table_exporter.py:191-198 | corrected: the header is never wider than the data |
| TableExporter.IntendedRowsFitHeader | powerpoint-lib/powerpoint_lib/table_exporter.py:189-205 | corrected: the frame is refused only when the header has names, there are rows and every rendered row is narrower, never because a row is too wide |
| TableExporter.IndexCellRejectsFrame | powerpoint-lib/powerpoint_lib/table_exporter.py:196-205 | a styler with no data columns, no header row and the body row ["row 0"] is refused as written (header of 0, rows of 1) and built with the corrected trimming |
| TableExporter.DisplayFrame | powerpoint-lib/powerpoint_lib/table_exporter.py:164-182 | a plain frame is formatted column by column and always built; a styler or a frame with formatters gives the styler's frame, which can be refused; a built frame is well formed |
| TableExporter.CreateDisplayFrame | powerpoint-lib/powerpoint_lib/table_exporter.py:164-182 | the steps give exactly the display frame or its refusal |
| TableExporter.MissingColumns | powerpoint-lib/powerpoint_lib/table_exporter.py:94 | a name is missing iff it is in the order and not among the columns |
| TableExporter.MissingInOrder | powerpoint-lib/powerpoint_lib/table_exporter.py:94 | the missing names keep their order in column_order |
| TableExporter.IndexOf | powerpoint-lib/powerpoint_lib/table_exporter.py:97 | the first column with that name |
| TableExporter.Project | powerpoint-lib/powerpoint_lib/table_exporter.py:97 | the named columns in the given order, each the frame's column of that name |
| TableExporter.TableFor | powerpoint-lib/powerpoint_lib/table_exporter.py:93-97 | without an order the display frame; with one, an error iff some name is absent, listing the missing names, and otherwise a well-formed table whose names are the order |
| TableExporter.ExportResult | powerpoint-lib/powerpoint_lib/table_exporter.py:84-120 | a missing template is reported iff the template does not exist; an export needs a built display frame and a slide layout, and goes to the destination |
| TableExporter.FileSystem.Write | powerpoint-lib/powerpoint_lib/table_exporter.py:120 | saving adds the path to the files |
| TableExporter.FileSystem.Unlink | powerpoint-lib/powerpoint_lib/table_exporter.py:103 | unlinking with missing_ok removes the path, present or not |
| TableExporter.PowerPointTableExporter.constructor | powerpoint-lib/powerpoint_lib/table_exporter.py:53-54 | the given options, or the defaults when none are given |
| TableExporter.PowerPointTableExporter.Export | powerpoint-lib/powerpoint_lib/table_exporter.py:56-120 | the outcome is the export result, and the files afterwards are the old ones plus the destination on success and unchanged otherwise: a refused frame or a column error comes before the image, and the temporary image is always removed |
| TableExporter.ExportTableToPptx | powerpoint-lib/powerpoint_lib/table_exporter.py:123-161 | the same outcome and file changes as an export with the given look and the default placement |
| TableExporter.FailuresWriteNothing | powerpoint-lib/powerpoint_lib/table_exporter.py:84-105 | a refused frame is reported iff the template exists and the display frame is refused, with its error, and never for a plain frame; a column error comes after both checks, with the missing names; an exported table has the order's names, or is the display frame without an order |

## Left out

- Network, file and console I/O: HTTP requests, `open`/`csv`/`json` writing, `print`, `input`, `getpass` and `os.environ` are parameters or outputs of the model. Progress and `--verbose` printing is not modelled.
- Demo mode of the fetchers, the fixtures and the plotting code are outside the modelled core.
- The kasa-smart-plug asyncio polling loop, device connection and notification sending; `check_state` is modelled with the reading and the time as parameters.
- vegas-score's `vegas_score.py` orchestration, the weather, USGS river, Census and EIA sources (their readings enter as decoded values), and the JSON report writing.
- Floating point: scores, percentages and elevations are exact reals. Python's `round(x, 1)` on scores and on the capacity percentage is not modelled; the display's `round(score / 5)` is, half to even.
- Number parsing covers plain decimals: `ParseDecimal` and `ParseInt` accept an optional sign, digits and one point. Exponents, `inf`/`nan` and underscores are not accepted.
- SourceFetch.StrOf: floats, lists and dicts print as a fixed placeholder instead of Python's `repr`.
- Python exception texts raised by malformed replies (`TypeError`, `AttributeError` messages) are one `Malformed` message.
- Environmental.MentionsClark: an `areaDesc` that is not a string is never kept. Python tests the `str()` of it, which could contain "Clark".
- The per-source success summaries of `_summary` are the `summarize` parameter of `StatusLine`.
- `html.unescape` is modelled for `&amp;`, `&lt;`, `&gt;`, `&quot;`, `&#39;` and `&#x27;` only; other named and numeric references are left as they are.
- `parse_qs` is modelled without percent-decoding and `+` handling; blank values are dropped as its default does.
- Path handling: `expanduser`, `resolve`, `mkdir` of parent directories and file-system errors other than a missing input or an unwritable output are not modelled. `Path.suffix`, `Path.stem` and the parent directory are modelled on `/`-separated strings, without pathlib's normalisation of a leading "./" or a trailing "/" (`Path("./out.csv")` names "out_highlights.csv", which `HighlightsOutputPath` writes as "./out_highlights.csv").
- `argparse` internals (help text, `--format` choice validation, usage output) are not modelled; flags enter already tokenised.
- ExtractCli.ExportFilesFailure: states which path failed but not that the files written before it are kept.
- ExtractCli.FetchBookmarksWithText: `main` never calls `_fetch_bookmarks_with_text`; it is modelled on its own, and `FullTextColumnEmpty` states the consequence for `main`.
- The `time` index of pandas and `resample('ME').last()` are not modelled: `analyze_trends` is given the monthly series. The unused `streak_end_date` variable is not modelled; nor are the printed percent changes, which divide by the elevation.
- LakeMeadTrends.AnalyzeTrends: the printed text is not modelled; the report datatype holds every value the printout shows.
- Economic.YoyText: the change enters already rounded to tenths; the rounding of the float difference by `:+.1f` is not modelled.
- ExtractArticles: the progress line and the exception text are not modelled; a crash is an outcome carrying the rows written before it.
- TableExporter: `_render_table_image` (great_tables rendering and PNG export) and the picture placement on the slide are not modelled; the temporary image is a name assumed fresh, as `NamedTemporaryFile` makes it.
- TableExporter: `Styler._translate` and `style.format(formatters)` are a parameter, the rendered header and body.
- TableExporter.BuildFrame: a row shorter than the widest gets "" in the cells it lacks, where pandas pads with a missing value; how the image shows that value is part of the rendering, which is not modelled.
- TableExporter: `CellValue` has no floats, dates or other objects; their `str()` is not modelled. With duplicate column labels the projection takes the first.
- TableExporter: the `FileNotFoundError`, `KeyError` and `ValueError` messages are outcome constructors carrying their data, not formatted text.

## Findings

| source | as written | input that shows it | evidently intended | confidence | as-written member | corrected member |
|---|---|---|---|---|---|---|
| lake-mead-data/lake_mead_analyzer.py:174-179 | the year-ago month is the last month-end on or before the current month-end minus one year | a series holding January 2024, February 2024 and February 2025: 2025-02-28 minus a year is 2024-02-28, before the month-end 2024-02-29, so January 2024 is compared | compare with the same month of the previous year (February 2024) | high, not executed | LakeMeadTrends.YearAgoAsWrittenSkipsLeapFebruary | LakeMeadTrends.YearAgoFindsSameMonth |
| powerpoint-lib/powerpoint_lib/table_exporter.py:196-205 | `values[-len(columns):]` trims a row longer than the header | a styled table with no data columns, no rendered header row and the body row ["row 0"]: `-0` is `0`, so the whole row is kept, one cell wider than the empty header, and `pd.DataFrame` raises | keep the last 0 values, that is none, so rows never exceed the header | medium, not executed | TableExporter.IndexCellRejectsFrame | TableExporter.IntendedRowsFitHeader |
