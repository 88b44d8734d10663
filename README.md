# Web performance measurement, modelled in Dafny

The system measures the page performance of a fixed list of sites with
Lighthouse in a headless Chrome. `PerformanceAnalyzer.runFullAnalysis` starts
Chrome, then visits each site in configuration order. Before every site but the
first it restarts Chrome. For each site, `measureSite` runs a batch of cold
measurements (storage cleared), restarts Chrome, then runs a batch of warm
measurements (storage kept). Every batch is `MEASUREMENTS_PER_CACHE_TYPE`
measurements, averaged per metric. Each measurement is retried through a
Chrome restart up to `MAX_RETRIES` times. A measurement that still fails
contributes an all-zero sample. Chrome is stopped at the end whatever happened.

The model has these modules, one per source file:

- `Chrome` (`chrome.dfy`, ChromeManager.js): `ChromeManager` is a class
  with the fields `chrome` and `chromePort`. Its methods start, stop and
  restart the browser.
- `Lighthouse` (`lighthouse.dfy`, LighthouseRunner.js): the measurement
  options, the retry loop `MeasureSingle`, the batch loop `MeasureMultiple`,
  `ExtractMetrics` and `CalculateAverage`.
- `Analyzer` (`analyzer.dfy`, index.js): `MeasureSite` and the site loop of
  `RunFullAnalysis`.
- `Utils` (`utils.dfy`, utils.js): `validateResults` and `validateConfig` over
  a model of JavaScript values, `simplifyErrorMessage`, the `showProgress` bar
  and the `formatFileSize` unit loop.

`Config` holds the constants of `src/config.js`. `Wrappers` holds `Option`,
`Result` and `Outcome`.

Everything outside the program is the class `Externals.Env`:

- the `pkill` of stray Chrome processes;
- `chromeLauncher.launch`;
- a handle's `kill()`;
- the `curl` probe;
- the `lighthouse` call.

Each of these is a method with an unspecified result that appends an `Event`
to the ghost field `trace`. Every method of the model states the exact trace
it appends. Ghost out-parameters (`rounds`, `logs`, `run`, `steps`) break that
trace into attempts, restarts, batches and site visits. Predicates over them
state the discipline the source follows:

- `Retried`: the retry rule of one measurement.
- `BatchRun`: one batch of measurements.
- `Sequenced`: cold batch, one restart, warm batch.
- `Campaign`: the site loop.
- `Analysis`: the outcome of a whole run.

The model follows these details of the code:

- The "Chrome not started" error is thrown inside the `try` of
  `measureSingle`, so it is retried through a restart like any other failure
  (LighthouseRunner.js:17-19, 46-60).
- Only `cls` is rounded by `calculateAverage`. The four time metrics keep
  their fractions (LighthouseRunner.js:142-146).
- `MEASUREMENT_TIMEOUT` is only printed, never enforced.
- Restart placement is fixed by the code. Apart from the restart before each
  retry of a measurement, Chrome is restarted only before every site but the
  first and between the cold and warm batch of a site.
- The back-fill in `measureSite`'s catch puts a bare all-zero metrics object
  (index.js:137-145, the same object as LighthouseRunner.js:119-127, both
  modelled by `Lighthouse.DefaultMetrics`) into a field that is still null.
  It does not put an `{average, runs}` batch there, hence
  `RegimeResult.Fallback`.
- `measureMultiple` catches every error, so the cold batch always completes.
  The only thing that can throw inside `measureSite` is the cache-mode
  restart. The only things that can make `runFullAnalysis` fail are the
  initial `startChrome` and the restart before a site.

## Model

| member | source | states |
|---|---|---|
| Chrome.ChromeManager.constructor | src/modules/ChromeManager.js:10-13 | a new manager records no handle and no port |
| Chrome.ChromeManager.IsRunning | src/modules/ChromeManager.js:66-68 | true exactly when a handle is recorded (the port is then recorded too) |
| Chrome.ChromeManager.GetPort | src/modules/ChromeManager.js:70-72 | the recorded port, present exactly when the manager is running, and equal to the handle's port |
| Chrome.ChromeManager.StartChrome | src/modules/ChromeManager.js:15-40 | kills stray Chrome processes, then launches once on port 9222. On success it records the launched handle and its port. On failure it returns the launch error and leaves both fields as they were |
| Chrome.ChromeManager.StopChrome | src/modules/ChromeManager.js:42-57 | with no handle it changes nothing. Otherwise it kills the handle, and if that throws it kills every Chrome process. Both fields end null on every path, and no error escapes |
| Chrome.ChromeManager.RestartChrome | src/modules/ChromeManager.js:59-64 | a complete stop followed by a start. The port afterwards is the one the launch produced. A failed launch is returned as a `LaunchError` and leaves the manager stopped |
| Chrome.ChromeManager.CheckConnection | src/modules/ChromeManager.js:87-96 | no probe and `false` when no (truthy) port is recorded; otherwise one probe of the recorded port, whose answer is the result |
| Lighthouse.RestartCounts | src/modules/ChromeManager.js:59-64 | a restart launches Chrome exactly once and never calls Lighthouse |
| Lighthouse.DefaultMetrics | src/modules/LighthouseRunner.js:119-127 | all five fields are 0, and adding it to a sample leaves the sample unchanged (the reduce's seed) |
| Lighthouse.ExtractMetrics | src/modules/LighthouseRunner.js:99-117 | each field is its audit's `numericValue` when that is a number, and 0 when the audit is missing or its value is undefined or NaN |
| Lighthouse.CalculateAverage | src/modules/LighthouseRunner.js:129-147 | all zeros for an empty list. Otherwise fcp, lcp, tbt and si are each the field's sum over all samples divided by their count, and cls is that mean rounded to three decimals |
| Lighthouse.Total | src/modules/LighthouseRunner.js:132-138 | the `reduce` over the samples from the all-zero seed, field by field; `TotalIsSum` proves it equal to the column sums |
| Lighthouse.TotalIsSum | src/modules/LighthouseRunner.js:132-138 | the `reduce` fold gives, per field, the ordinary sum of that field's column |
| Lighthouse.Round3Close | src/modules/LighthouseRunner.js:145 | rounding cls to three decimals moves it by at most 0.0005 |
| Lighthouse.AverageBounds | src/modules/LighthouseRunner.js:140-147 | a time metric's average lies between the smallest and largest sample; the average cls lies within 0.0005 of that range |
| Lighthouse.AverageNonNegative | src/modules/LighthouseRunner.js:129-147 | non-negative samples give a non-negative average in every field |
| Lighthouse.SentinelWeighsIn | src/modules/LighthouseRunner.js:129-147 | an all-zero sample counts in the divisor and adds nothing to the sum: each time metric's average is the old sum over n + 1, and cls is that quotient rounded to three decimals |
| Lighthouse.AverageOfCopies | src/modules/LighthouseRunner.js:140-147 | n equal samples average back to that sample, cls up to its rounding |
| Lighthouse.AverageExample | src/modules/LighthouseRunner.js:140-147 | two concrete samples average to their field-wise midpoint (cls 0.010 and 0.020 give 0.015) |
| Lighthouse.BuildOptions | src/modules/LighthouseRunner.js:21-33 | the options carry the given port; `disableStorageReset` equals `useCache`; the clear list is empty exactly when caching, and otherwise is the nine storage categories in source order |
| Lighthouse.Evaluate | src/modules/LighthouseRunner.js:36-42 | a thrown call fails with its message; a null result or one without `lhr` fails as invalid; anything else succeeds with the extracted metrics |
| Lighthouse.NotRunningRetried | src/modules/LighthouseRunner.js:17-19 | when no port is recorded, the first attempt fails as "not running" without calling Lighthouse, and it is followed by a restart and a further attempt |
| Lighthouse.RetryBounds | src/modules/LighthouseRunner.js:46-63 | at most MAX_RETRIES + 1 attempts; at most one Lighthouse call per attempt; exactly one restart (one launch) before each further attempt |
| Lighthouse.RetryOptions | src/modules/LighthouseRunner.js:21-36 | every Lighthouse call of a measurement is for its URL, with the storage options of its cache regime |
| Lighthouse.LighthouseRunner.constructor | src/modules/LighthouseRunner.js:6-8 | the runner drives the given manager |
| Lighthouse.LighthouseRunner.MeasureSingle | src/modules/LighthouseRunner.js:10-65 | the attempts follow the retry rule (`Retried`). Each failed attempt below the limit is followed by exactly one restart, whatever the restart's outcome. Every attempt runs on the port recorded when it began, with the regime's options. The result is the last attempt's, so an error is rethrown only after MAX_RETRIES + 1 failed attempts. The trace appended and the port left behind are exactly those of the rounds |
| Lighthouse.BatchCalls | src/modules/LighthouseRunner.js:68-91 | a batch of n measurements calls Lighthouse at most n * (MAX_RETRIES + 1) times |
| Lighthouse.BatchOptions | src/modules/LighthouseRunner.js:68-91 | every Lighthouse call of a batch uses the batch's URL and cache regime |
| Lighthouse.LighthouseRunner.MeasureMultiple | src/modules/LighthouseRunner.js:68-97 | exactly `count` measurements (none for a count below 1), run one after another. Each starts from the port the previous one left. Runs are in attempt order: a measured sample, or all zeros where the retries ran out. `average` is `CalculateAverage` of the runs |
| Analyzer.BackFill | src/index.js:102-108 | a field already holding a batch keeps it; a null field becomes the all-zero metrics |
| Analyzer.SiteRegimes | src/index.js:76-100 | every cold call clears storage and every warm call keeps it; the cache-mode switch launches once; each batch that runs has MEASUREMENTS_PER_CACHE_TYPE runs |
| Analyzer.PerformanceAnalyzer.constructor | src/index.js:9-13 | the runner shares the analyzer's manager, which starts stopped |
| Analyzer.PerformanceAnalyzer.MeasureSite | src/index.js:68-111 | order: a full cold batch, then exactly one restart, then a full warm batch on the restarted browser (none if the restart threw). The result carries the site's name and url and the cold batch. `withCache` holds the warm batch, or the all-zero metrics when the restart threw. It never fails. The port left recorded is the warm batch's last, or none when the restart threw |
| Analyzer.PerformanceAnalyzer.VisitSite | src/index.js:36-54 | no restart before the first site and one before every later site. The site is measured exactly when a browser is up afterwards. A restart that threw ends the visit with that launch error. The port left recorded is the one the site's measurement left, or none after a failed restart |
| Analyzer.PerformanceAnalyzer.MeasureSites | src/index.js:36-54 | the sites in configuration order, each measured from the port its restart recorded. When every visit completes, the results are one per site, in order. Otherwise the loop stopped at the first restart that threw, and returns its error. The port left recorded is `LoopPort`: the start port for no sites, else what the last visit left |
| Analyzer.RestartPlacement | src/index.js:46-50 | the first site is preceded by no launch; every later site is preceded by exactly one launch and no Lighthouse call |
| Analyzer.OutcomesAt | src/index.js:52-53 | the pushed results are one per visited site, result i being site i's |
| Analyzer.StartFailed | src/index.js:31-66 | a failed initial start measures nothing and fails with the launch error |
| Analyzer.AllMeasured | src/index.js:36-57 | a loop over every site yields one result per site, in configuration order |
| Analyzer.RestartFailed | src/index.js:46-61 | a restart that threw before a site fails the analysis with that launch error |
| Analyzer.PerformanceAnalyzer.RunFullAnalysis | src/index.js:27-66 | one start, then the site loop, then a stop on every path (success, failed start, failed restart), leaving no handle and no port. The stop kills the handle recorded when it began: the one left by the site loop, whose port is `LoopPort`, or, after a failed start, the one held before the call; there is a handle to kill exactly when the loop left a port. It succeeds exactly when every site was visited, with results `SiteOutcome` per site in order; otherwise it fails with the error of the launch that threw |
| Utils.EveryMeansAll | src/modules/utils.js:166-170 | `every` over the field list holds exactly when the callback holds for each field |
| Utils.ValidateResults | src/modules/utils.js:160-171 | validateResults itself: false for a falsy value or a non-object, else `every` over the five metric fields; it accepts only an `Obj` (never null; arrays are modelled by their items alone) |
| Utils.ValidateResultsMeans | src/modules/utils.js:160-171 | true exactly for an `Obj` (arrays are modelled by their items alone) whose five metric fields are own properties holding numbers other than NaN |
| Utils.MetricsValidate | src/modules/utils.js:160-171 | every metrics object `extractMetrics` builds passes |
| Utils.MissingFieldInvalid | src/modules/utils.js:166-170 | removing any one metric field makes it fail |
| Utils.ValidateConfig | src/modules/utils.js:174-194 | returns true exactly when all three keys are present, SITES is a non-empty array and every site has a truthy name, a truthy url and a valid url. Otherwise it throws for the first missing key (in order SITES, MEASUREMENTS_PER_CACHE_TYPE, CHROME_PORT), then for a missing or empty site list, then for the first rejected site. A null or undefined site raises a TypeError |
| Utils.Includes | src/modules/utils.js:103 | `String.prototype.includes`: a pattern longer than the string is never included, and the empty pattern always is |
| Utils.IncludesMeans | src/modules/utils.js:103 | `includes` holds exactly when some window of the message equals the pattern |
| Utils.SimplifyErrorMessage | src/modules/utils.js:102-114 | simplifyErrorMessage on the error's message: the result is the message itself or one of the three fixed Korean texts |
| Utils.SimplifyPriority | src/modules/utils.js:102-114 | ECONNREFUSED, PROTOCOL_TIMEOUT, CHROME_NOT_INSTALLED are checked in that order, and the first one occurring anywhere in the message selects its fixed text; a message with none is returned unchanged |
| Utils.SimplifyIdempotent | src/modules/utils.js:102-114 | simplifying a simplified message changes nothing: no replacement text contains a keyword |
| Utils.FloorDiv | src/modules/utils.js:118 | `Math.floor(a / b)`: the integer q with q * b <= a < (q + 1) * b (bounds reversed for a negative b) |
| Utils.ShowProgress | src/modules/utils.js:117-122 | the percentage and bar of showProgress. A computed percentage p is floor(100 · current / total): p · total <= 100 · current < (p + 1) · total for a positive total, reversed for a negative one. It lies in 0..109 and comes with a ten-cell bar whose first floor(p / 10) cells are full. A NaN percentage (0 / 0) comes with an empty bar. With a zero total it throws exactly when current is not 0; `ProgressRange` gives the other totals |
| Utils.ProgressBar | src/modules/utils.js:117-122 | for 0 <= current <= total with total > 0: it succeeds, the percentage p lies in 0..100 with p · total <= 100 · current < (p + 1) · total, and the bar is ten cells, the first floor(percentage / 10) full and the rest empty |
| Utils.ProgressOverflow | src/modules/utils.js:117-122 | a position at 110 % of the total or beyond makes `repeat` throw a RangeError |
| Utils.ProgressRange | src/modules/utils.js:117-119 | with a positive total, showProgress throws exactly when the position is negative or at 110 % of the total or beyond; with a negative total, exactly when the position is positive or at 110 % or beyond |
| Utils.FormatFileSize | src/modules/utils.js:125-136 | the loop ends with unitIndex <= 3 and with unitIndex == 3 or size < 1024. Size is bytes / 1024^unitIndex. Every division made started from a size of at least 1024. The value is size rounded to two decimals, and the unit is B, KB, MB or GB by index |

## Left out

- `Utils.ValidateResults`/`Utils.ValidateConfig`: `JsValue` arrays carry no named properties, and objects have no prototype chain: `Property` and `HasOwn` see own properties only. An array with the five own number properties, which validateResults accepts, is not represented, nor an object without `hasOwnProperty` (created from a null prototype), on which the source throws.
- Sleeps, console output, the start-time clock and `printSystemInfo` are left out. None of them influences the control flow.
- `ReportGenerator` and `generateResults` (Excel and console reports) are left out; `RunFullAnalysis` returns the list it would hand to `generateResults`. `generateResults` swallows its own errors, so it cannot change the outcome.
- The real `pkill`/`taskkill`, `chrome-launcher`, a handle's `kill()`, the `curl` probe and `lighthouse` are not modelled. Each becomes an `Externals.Env` method that may return anything. The stray-process kill never fails, because `killExistingChrome` swallows its errors.
- The static `LIGHTHOUSE_OPTIONS` settings and `CHROME_FLAGS` are not modelled; the options model keeps only the fields `measureSingle` sets (port, `disableStorageReset`, `clearStorageTypes`).
- The concurrency of promises is not modelled. Every `await` in the core is sequential, so the model is sequential.
- `MeasureSingle`: the recursion on `retryCount` is a loop starting at 0. The default argument is never overridden by any caller.
- `MEASUREMENT_TIMEOUT` is not modelled, because the source never enforces it.
- IEEE double arithmetic is not modelled. Metrics, averages and file sizes are `real`, so overflow, NaN inputs to the averaging and binary rounding are not captured.
- `Utils.ShowProgress`: `current / total * 100` is computed exactly, not as a double; a double can land just below an integer and floor one lower. `current` and `total` are integers.
- `showProgress`'s log line and `formatFileSize`'s output text are not modelled; only their arithmetic is.
- `isValidUrl` (the WHATWG URL parser) is a parameter of `ValidateConfig`, not modelled.
- `simplifyErrorMessage` is modelled on the message string. A thrown value without a string `message` is not modelled.
- `extractMetrics` on an `lhr` without `audits` (a TypeError in the source) is not modelled; `Lhr` always carries an audit map.
- `isProcessRunning`, `isPortInUse`, `randomSleep`, `getCurrentTime`, `getTimeDiff`, `getMemoryUsage` and `formatMetrics` are left out: they are OS plumbing or formatting outside the core.
- Process-level code (`main`, `init`, the signal handlers) and the debug scripts are left out.
- Handle identity is not modelled: a launched handle is its pid and port, and nothing compares handles.
