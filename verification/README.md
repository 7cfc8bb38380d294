# A verified model of SESHAT's algorithmic core

SESHAT benchmarks a secure communication gateway. Around its processes and
sockets it holds algorithms whose results end up in every published number. This
project models them in Dafny, in the form the source has (objects that change
their fields, in-place arrays, loops, or plain functions), and proves what the
source and its documentation promise of them.

| file | what it models |
|---|---|
| ResultTree, Report, ResultDirectory | the result directory as a crash/resume protocol: files written one at a time by a process that may die at any write, a resumed run, and the consolidated tables rebuilt from disk |
| Calendar, Text | the closed-form conversion of Unix seconds (section 4.16 of XBD, IEEE Std 1003.1-2017) against a calendar stepped day by day, and the directory stamp |
| Csv, SummaryRow, RowColumns | the CSV writer and its readers (section 2 of RFC 4180), the columns of the cross-scenario table, the field each of them shows, and the row rebuilt from key/value files |
| WireCodec | the message header and the payload filled and verified in 256-byte blocks |
| Statistics, AppMetrics | percentiles, fences and summaries; loss, duplicate and reorder counts; one flow's accumulator and the pooling of connections |
| SystemMetrics, SystemBoard, SystemTotals, SystemSamples, SampleLoop | exact totals beside the per-tick board, what they mean to each other and for the samples themselves, and the sampler's tick schedule |
| Affinity | the partition of cores by weight |
| Gateway | the 16-bit port counter and the wiring of per-class rule chains |
| Matrix, MatrixRows, MatrixNames | the expansion of the benchmark matrix, which rows a tier has and what they hold, and when they have names of their own |
| Sink | the probe's receive tally and its burst reports |
| Sorting, Wrappers | a sort as a function, optional values, small arithmetic |

The central statement of the first part: whatever file write a process dies at,
and however often, the two tables of a finished suite, as they parse from their
text, are the true rows of its scenarios, one each, if and only if

- the directories are distinct and below `scenarios`,
- no session died at one of the few writes at which a multi-stream scenario is
  recorded but has no row yet, and
- no text that should come back in a row has a line feed, nor, in a row that has to
  be rebuilt, does a line of the category pass for another column

(`Report.FinishedTables`, `ResultTree.CutAttempt`). It composes the protocol, the
CSV round trip and the reconstruction of rows, and `ResultDirectory.ResumeToEnd`
carries it through the suite loop and the table rebuild as methods. Both tables are
read by the reader of the repository's overview report, which it applies to
`summary.csv` alone: no code in the repository reads `skipped.csv` back.

Check the whole project with `dafny verify dfyconfig.toml`. Every lemma carries
`{:induction false}`, so no proof rests on an induction its body does not spell out.

## Where the code and its documentation disagree

The model follows the code.

- `src/commands.rs:659-670` keeps raw scenario names unique, but directories use
  sanitized names (`src/report/results.rs:1422-1432`), and `.` and `..` pass both
  that and the check for blank names (`src/config/mod.rs:138`). One row per
  scenario holds if and only if the sanitized names are distinct and none of them
  is empty, `.` or `..`: those lead to `scenarios` itself and to the root, which
  the listing of directories never shows.
- `src/report/results.rs:1343-1345` and `1363-1364` say that values in the artifacts
  never contain newlines. The code writes ones that do: a failing `ip`, `tc` or
  `openssl` puts its error output into an error (`src/topology/mod.rs:203-212`,
  `src/topology/impair.rs:99`, `src/pki.rs:293-306`) that becomes a skip reason
  (`src/commands.rs:1515`, `1533`, `1593`, `1607`), the first two with the line feed
  at its end; and a name with one inside passes validation (`src/config/mod.rs:138`).
  Such a row is read as two (`Report.SkipReasonSplits`), and a rebuilt one is cut
  short. `Csv.TableRoundTrip`, `Csv.KeyValueRoundTrip`, `Report.SkipPairsRead` and
  `SummaryRow.ReconstructionMatchesLive` say exactly when texts come back.
- A multi-stream scenario writes `stream_summary.csv`, which counts as recorded,
  before any `summary.csv`. A death after the second or third write of a measured
  one, or after the second of one skipped after its streams, leaves a directory
  that no resumed run gives a row; a death at any other write of any scenario
  costs nothing.
- `src/report/results.rs:736-739` says old scenarios are reconstructed; four
  columns are not persisted anywhere and come back blank, always including
  `co_corrected`.
- `src/gateway/mod.rs:89-90` says a monotonic counter guarantees distinct ports.
  It wraps at 65536, which 12000 does not divide; draws across the wrap are
  distinct only in windows of at most 5536 that start at 60000 or later.
- `src/metrics/app.rs:16-17` describes reordering as arrivals below a previously
  seen one; the code counts steps down from the arrival before. The two agree on
  whether there was any, not on how many.
- `src/metrics/stats.rs:134` calls the nearest tabulated degrees of freedom at or above
  the request conservative. Critical values fall along the table, so between entries
  the interval comes out narrower, not wider (`Statistics.TValueNarrows`).
- `src/proto/wire.rs:137-141` says payload swaps are caught; they are unless the
  two sequence numbers agree modulo 256.
- `scripts/wire_probe.py:164-168` calls everything missing below the highest
  sequence lost; duplicates in the burst hide as many losses.
- `src/metrics/system.rs:563-564` lets the aggregator tell ticks apart by
  `elapsed_ms`; two ticks of the sampler may carry the same one. Any rate from 1 Hz
  is accepted (`src/config/mod.rs:108`), and above 1000 Hz even ticks on time do.
  `SampleLoop.StampsDistinct` says exactly when none can, in terms of the greatest
  common divisor of the interval and a millisecond, and exactly then the mean CPU
  share never exceeds the peak (`SystemTotals.MeanAgainstPeak`); otherwise some run
  of the sampler has a positive mean and a peak of zero.
- `max - min + 1` in `src/metrics/app.rs:84` wraps to zero when the arrivals span
  all of the 64-bit range, in a build without overflow checks.

## Model

| member | source | states |
|---|---|---|
| ResultTree.FilesImplyFiles | src/report/results.rs:312-526 | Over any number of sessions, each killed at any file write or run to its end, with or without a rebuilt table, in every directory but the root: a summary row implies a summary, a summary a configuration, a skip row a skip, a hot-reload record a summary row, and no directory has both a summary and a skip. |
| ResultTree.RootBreaksImplications | src/report/results.rs:736-760 | In the root the implications fail: a scenario named `..` that was skipped meets the rebuilt summary there. |
| ResultTree.CutAttempt | src/report/results.rs:312-526 | One attempt cut off after `n` of its writes leaves an orphan (recorded, but in neither table) if and only if the scenario is multi-stream and the cut comes after the second or third write of a measured one, or after the second of one skipped after its streams; at any other cut the directory is unrecorded or holds exactly that attempt's texts, and uncut always the last. |
| ResultTree.MeasuredPhases | src/report/results.rs:312-526 | After any number of its writes a measured attempt has left exactly the files up to there, each with its text: the stream artifacts, configuration, summary, runs, saturation curve, summary row and reload record, in this order. |
| ResultTree.SkippedPhases | src/report/results.rs:662-675 | After any number of its writes a skipped attempt has left exactly the stream artifacts, skip and skip row up to there, each with its text. |
| ResultTree.NoRerun | src/commands.rs:268-282 | A directory recorded before a run is byte for byte unchanged by it, whatever the rest of the run does: no recorded scenario is run again. |
| ResultTree.SurvivingRun | src/commands.rs:268-282 | A run that is not killed has recorded every scenario it reached, and every orphan in its tree was one before. |
| ResultTree.FinishedTree | src/report/results.rs:288-298 | The tree of a finished session lists exactly the listed directories of the suite, all recorded, and its orphans are those of the tree before that session. |
| ResultTree.FinishedCounts | src/report/results.rs:740-790 | Executed, skipped and orphaned directories of a finished tree are disjoint and add up to the listed directories of the suite. |
| ResultTree.ListedCount | src/report/results.rs:723-735 | A suite has a listed directory for every scenario if and only if its directories differ and none is `scenarios` itself or the root. |
| ResultTree.OneRowPerScenario | src/commands.rs:660-670 | For suites of single-stream and hot-reload scenarios, executed plus skipped equals the scenario count after any crashes if and only if no two sanitized names are equal and none is empty, `.` or `..`. |
| ResultTree.DotNamesHaveNoRow | src/report/results.rs:723-735 | A lone scenario named `.` or `..` has no row in either table after any finished run, though its directory is distinct. |
| ResultTree.RowsMissing | src/commands.rs:2214-2345 | A finished suite with scenarios of any kind is complete if and only if its directories are distinct and listed and no session died at an orphaning cut; with such directories it is short by exactly the number of those deaths, and none happened if and only if the tree before the last session has no orphan. |
| ResultTree.AttemptOrphans | src/commands.rs:2214-2345 | An attempt adds its own directory to the orphans if and only if the process was alive, the scenario unrecorded and its remaining writes end at an orphaning cut; otherwise the orphans stay the same. |
| ResultTree.ReplayOrphans | src/commands.rs:260-467 | After any sessions the orphans are as many as the deaths at orphaning cuts. |
| ResultTree.SessionCuts | src/commands.rs:260-467 | A session adds at most one such death, and none when it runs to its end. |
| ResultTree.NoCutsWithoutStreams | src/commands.rs:2214-2345 | Without multi-stream scenarios no death is at an orphaning cut. |
| ResultTree.OrphansRemain | src/report/results.rs:288-298 | A directory that died after `stream_summary.csv` counts as recorded, so no later session ever gives it a row. |
| ResultTree.CrashAfterStreamsLosesRow | src/commands.rs:2214-2345 | A concrete family: a multi-stream scenario killed after its second write and resumed to the end has no row in either table. |
| ResultTree.Sanitize | src/report/results.rs:1422-1432 | The directory name has the length of the scenario name; safe characters are kept and all others become `_`. |
| ResultTree.OneSegment | src/report/results.rs:1422-1432 | Whatever the name, its directory is one segment of a path: not empty, and without a separator. |
| ResultTree.RawNamesMayCollide | src/report/results.rs:1422-1432 | Two different names with one directory, which the check on raw names lets through. |
| ResultTree.DuplicateScenarioName | src/commands.rs:660-670 | Reports a name if and only if some name occurs twice over the loaded configurations, and then the first repeated one. |
| Report.MeasuredLine | src/report/results.rs:740-760 | In every state a measured directory can be in, whatever the texts, its line is the record of one row. That row is the true one (the live row, or what is persisted of it with the other columns blank) on a single line if and only if no text in it has a line feed and, when only the key/value files were written, no line of the category is taken for a column. |
| Report.SkippedLine | src/report/results.rs:766-790 | In every state a skipped directory can be in, whatever the texts, its line is the record of one row, and that row is the scenario's name and reason on one line if and only if neither has a line feed. |
| Report.TablesRead | src/report/results.rs:740-790 | In every reachable state a consolidated table parses back as its header and the true row of each executed, respectively skipped, directory if and only if the texts in those rows have no line feed. |
| Report.PartsOfTree | src/report/results.rs:740-790 | The directories contributing to each table are exactly the executed and the skipped ones, once each, whatever their texts. |
| Report.FinishedTables | src/report/results.rs:681-720 | After any crashes, the two tables of a finished suite with scenarios of any kind and any texts, as parsed, are the true rows of the scenarios, one each, if and only if the directories are distinct and listed, no session died at an orphaning cut, and no text that should come back in a row has a line feed. |
| Report.SkipPairsRead | src/report/results.rs:662-675 | A skip record reads back as its name and reason if and only if neither has a line feed. |
| Report.TreeHasAccount | src/report/results.rs:312-526 | In every reachable state each directory with a row tells of one scenario of the suite and one attempt at it, of which it holds the files. |
| Report.SurvivingTexts | src/report/results.rs:312-526 | An attempt the process survives leaves every text of its outcome under its own file: configuration, summary, row, runs, the curve of a sweep, the streams of a multi-stream scenario, the record of a reload; or the skip and its row. |
| Report.SkipColumns | src/report/results.rs:662-675 | Looked up by name in a skip row, the columns give the scenario and the reason. |
| Report.SkipReasonSplits | src/report/results.rs:1361-1392 | The condition on line feeds is needed: a lone scenario skipped without any crash for a reason that ends in a line feed has a complete history, and its one row reads as two, the second of no scenario. |
| ResultDirectory.ResultDir.constructor | src/report/results.rs:265-278 | Reopens a tree as it was left. |
| ResultDirectory.ResultDir.WriteFile | src/report/csv.rs:80-85 | Replaces one file's text, or ends the process with nothing changed when its budget of writes is used up. |
| ResultDirectory.ResultDir.RecordScenario | src/report/results.rs:312-526 | The disk after recording is the protocol's record writes with the real texts, cut where the process dies; the scenario joins the outcomes only when all writes succeeded. |
| ResultDirectory.ResultDir.RecordSkipped | src/report/results.rs:662-675 | The disk after a skip is the two skip writes in order, cut where the process dies. |
| ResultDirectory.ResultDir.RunScenario | src/commands.rs:2214-2345 | One scenario leaves the disk of its kind's full script: stream artifacts first, then the record or the skip, then the reload artifact. |
| ResultDirectory.ResultDir.RunConfig | src/commands.rs:260-467 | The suite loop equals the protocol's run: recorded scenarios are passed over, the others attempted in order until the process dies. |
| ResultDirectory.ResultDir.ScenarioDirs | src/report/results.rs:723-735 | Whatever order the file system lists, the directories come out sorted, each once. |
| ResultDirectory.ResultDir.ReadSummaryLine | src/report/results.rs:740-760 | The exact row if present, else the row reconstructed from the two key/value files, else nothing. |
| ResultDirectory.ResultDir.ReadSkipLine | src/report/results.rs:766-790 | The exact skip row if present, else the one rebuilt from `skip.csv`, else nothing. |
| ResultDirectory.ResultDir.RebuildSummary | src/report/results.rs:740-760 | The summary table's text and the number of its rows. |
| ResultDirectory.ResultDir.RebuildSkipped | src/report/results.rs:766-790 | The skip table's text and the number of its rows. |
| ResultDirectory.ResultDir.ReadDir | src/report/results.rs:723-735 | Lists every directory below `scenarios` exactly once, in some order; `.` and `..` are none of them. |
| ResultDirectory.ResultDir.Finish | src/report/results.rs:681-720 | Both tables over the sorted directories, with their row counts; the summary is written to the root, where the process may die, before the skips are read. |
| ResultDirectory.ResumeToEnd | src/commands.rs:260-467 | Reopening any tree that sessions left, running the suite with any texts and rebuilding the tables is one more session; when the process lives the two counts add up to the suite if and only if the whole history was complete, and the tables as parsed have each scenario's true row if and only if, moreover, no text that should come back has a line feed. |
| ResultDirectory.TablesIgnoreListingOrder | src/report/results.rs:723-735 | Two listings of one tree sort to the same list, so the tables do not depend on listing order. |
| ResultDirectory.FreshRoot | src/report/results.rs:243-262 | The suffix loop ends, at a path that does not exist, and every earlier candidate exists. |
| Calendar.CivilStep | src/report/results.rs:1448-1466 | For every day number, before or after 1970, the closed form is a valid date and the next number gives the next calendar day. |
| Calendar.CivilIsWalk | src/report/results.rs:1448-1466 | The closed form is the date reached by stepping a Gregorian calendar `n` days from 1970-01-01. |
| Calendar.CivilFromUnixIsWalk | src/report/results.rs:1448-1466 | Every timestamp is the walked date at a time of day in range that recombines to the seconds left over. |
| Calendar.CivilFromUnixIncreases | src/report/results.rs:1448-1466 | Later seconds give lexicographically later date-times. |
| Calendar.StampsSortInTimeOrder | src/report/results.rs:1435-1438 | Stamps up to the end of year 9999 sort as strings in time order. |
| Calendar.StampOrderBound | src/report/results.rs:1435-1438 | The bound is exact: all stamps below a bound sort in time order if and only if it does not pass 253402300800. |
| Calendar.StampsBreakAtYear10000 | src/report/results.rs:1435-1438 | The first stamp of year 10000 sorts before the last of 9999. |
| Calendar.StampsAreDistinct | src/report/results.rs:1435-1438 | Distinct seconds have distinct stamps, in every year. |
| Calendar.StampReads | src/report/results.rs:1435-1438 | Every stamp reads back: its digits are the year, month and day of the walked date, a dash, and the hour, minute and second that make up the second of the day; four digits of year up to 9999. |
| Csv.Escape | src/report/csv.rs:100-118 | A field with a comma, quote or line break is quoted with its quotes doubled; any other is untouched. |
| Csv.EscapeRule | src/report/csv.rs:100-118 | A field is written as it is if and only if it has no comma, quote or line break; any other is put in quotes and longer by those and one for each quote in it. |
| Csv.WriteRow | src/report/csv.rs:89-97 | Appends the comma-separated escaped cells and CRLF. |
| Csv.RecordShape | src/report/csv.rs:89-97 | A record is its first cell, a comma and the record of the rest, or a line break after the last. |
| Csv.Table.constructor | src/report/csv.rs:22-28 | An empty table under its header. |
| Csv.Table.KeyValue | src/report/csv.rs:30-33 | An empty key/value table. |
| Csv.Table.Row | src/report/csv.rs:35-38 | Appends one row and changes nothing else. |
| Csv.Table.Kv | src/report/csv.rs:41-44 | Appends one pair and changes nothing else. |
| Csv.Table.Render | src/report/csv.rs:57-68 | The text of the header and all rows in order. |
| Csv.Table.RenderBody | src/report/csv.rs:71-77 | The text of the rows alone. |
| Csv.ParseRecord | src/report/overview.rs:487-514 | The character loop, shared with the report's line splitter, yields the fields the quote state machine defines. |
| Csv.RecordRoundTrip | src/report/results.rs:1365-1392 | Every non-empty row of arbitrary strings is read back from the record written for it. |
| Csv.QuotesInField | src/report/results.rs:1365-1392 | A stretch in quotes may begin and end anywhere in a field: commas in it belong to the field, its quotes do not. |
| Csv.TableParses | src/report/overview.rs:84-92 | Without line feeds in cells, a written table reads back as its rows that are not blank. |
| Csv.TrimmedCr | src/report/overview.rs:84-92 | Reading a line drops the carriage returns at its end, however many, and nothing else. |
| Csv.TableRoundTrip | src/report/overview.rs:84-92 | A written table is read back whole if and only if no cell has a line feed and no row is blank. |
| Csv.ConsolidatedRoundTrip | src/report/results.rs:736-760 | Bodies rendered apart and concatenated under one header read back as the header and all their rows. |
| Csv.ParseSummary | src/report/overview.rs:84-141 | The reading loop returns the first non-empty line as header and one row per further line, nothing for an empty text. |
| Csv.ColumnByName | src/report/overview.rs:93-107 | A lookup by column name gives the cell of the last column of that name, blank where the row is shorter, and nothing for a name that heads no column. |
| Csv.ReadKeyValueCsv | src/report/results.rs:1346-1360 | The reading loop computes the map a key/value text denotes. |
| Csv.KeyValueRoundTrip | src/report/results.rs:1346-1360 | A key/value artifact of pairs under distinct keys reads back as their map if and only if no key and no value has a line feed. |
| Csv.PairsReadBack | src/report/results.rs:1346-1360 | Without line feeds any pairs read back, a later pair winning over an earlier one with its key. |
| Csv.ReadAppends | src/report/results.rs:1346-1360 | With any texts, records written one after another are read one after another, later pairs winning. |
| Csv.OneMoreLine | src/report/results.rs:1346-1360 | After any text of whole lines, one more line of any kind adds its first two fields as a pair that wins over earlier ones, or nothing when it has fewer. |
| Csv.KeyValuesAreOneLine | src/report/results.rs:1341-1345 | Nothing read from a key/value artifact has a line feed, whatever was written. |
| SummaryRow.ReconstructionMatchesLive | src/report/results.rs:1400-1419 | For every record, with any texts and any subset of optional artifacts, the row rebuilt from the text of `config.csv` and `summary.csv` is the live row in every column but `jitter_us_mean`, `co_corrected`, `send_lag_mean_us` and `send_lag_max_us`, which are blank, if and only if the texts with a column have no line feed and no line of the category is taken for another column's value. |
| SummaryRow.OneLineIsHarmless | src/report/results.rs:1400-1419 | A category of one line is never taken for a column. |
| SummaryRow.ReconstructionIsNeverLive | src/report/results.rs:736-739 | The rebuilt row never equals the live one: a rebuild always loses `co_corrected`. |
| SummaryRow.LiveRowIsTabular | src/report/results.rs:42-112 | The live row has one cell per header and starts with the scenario's name; it keeps to one line, as does its rebuilt form, if and only if every text with a column does. |
| RowColumns.ColumnsShowFields | src/report/results.rs:375-490 | Every one of the 69 columns of the live row shows the measured field it names, printed with its decimals, and is blank where there is none. |
| RowColumns.ReadByName | src/report/overview.rs:93-107 | Looked up by the name in the header, each column of a live row gives that field. |
| RowColumns.LiveColumns | src/report/results.rs:375-490 | The four columns no artifact persists: the send lag's mean and its maximum, the correction, and a jitter that times the runs is the sum of their jitters. |
| RowColumns.LagChangesOneColumn | src/report/results.rs:375-490 | A change of the mean lag, the greatest lag or the correction shows in its own column and no other. |
| RowColumns.JitterChangesOneColumn | src/report/results.rs:869-876 | The jitter of one run shows in the jitter column alone, by its part of the mean. |
| RowColumns.TotalsAddUp | src/report/results.rs:1338-1340 | Messages, failures, violations and jitter add up over runs, a single run's being its own. |
| RowColumns.SummaryShowsFields | src/report/results.rs:936-1094 | Whatever `summary.csv` reads back under a key is the field the key names, and what it does not list is blank. |
| RowColumns.ConfigShowsFields | src/report/results.rs:905-933 | `config.csv` reads back as the configuration, field by field, the payload being the message less its 24 bytes of header. |
| WireCodec.Encode | src/proto/wire.rs:105-112 | Writes the 24 header bytes at the front of the buffer and nothing else. |
| WireCodec.DecodeOfEncode | src/proto/wire.rs:105-134 | Decoding returns the encoded header, whatever bytes follow it. |
| WireCodec.EncodeOfDecode | src/proto/wire.rs:116-134 | Re-encoding an accepted header reproduces the accepted bytes. |
| WireCodec.LeByte | src/proto/wire.rs:105-112 | Byte `k` of a number is its `k`-th digit to the base 256, least significant first. |
| WireCodec.MessageLayout | src/proto/wire.rs:105-145 | Every byte of a message: the letters SESH, sequence number, time and length least significant byte first, then the payload counting up from the sequence number modulo 256. |
| WireCodec.HeaderRefused | src/proto/wire.rs:116-134 | A header is refused exactly when it is shorter than 24 bytes, or else begins with other letters, and the error says which. |
| WireCodec.FillByteIsRamp | src/proto/wire.rs:143-145 | The wrapping 64-bit sum has the low byte of the plain sum. |
| WireCodec.BuildRamp | src/proto/wire.rs:153-161 | The table built by the loop is the doubled ramp. |
| WireCodec.RampWindow | src/proto/wire.rs:147-161 | Every 256-aligned block of a payload is one window of the doubled table. |
| WireCodec.FillPayload | src/proto/wire.rs:165-175 | The block loop writes the per-byte pattern at every index of the range, for any length, and nothing outside it. |
| WireCodec.VerifyPayload | src/proto/wire.rs:181-197 | Accepts if and only if no byte differs, and otherwise reports the least offset that does. |
| WireCodec.EncodeMessageAt | src/proto/wire.rs:216-223 | The front of the buffer becomes the header followed by its payload; the rest is untouched. |
| WireCodec.DecodeMessage | src/proto/wire.rs:230-241 | Short header, bad magic, truncation and corruption are reported in this order; else the header is returned. |
| WireCodec.AcceptsExactlyEncodings | src/proto/wire.rs:216-241 | A buffer is accepted with a header if and only if it begins with that header's encoded message. |
| WireCodec.MessagesArePrefixFree | src/proto/wire.rs:216-241 | A buffer begins with at most one encoded message. |
| WireCodec.TruncationIsDetected | src/proto/wire.rs:230-238 | Every proper prefix of a message is rejected with the exact lengths. |
| WireCodec.TamperingIsLocated | src/proto/wire.rs:181-197 | Changing any one payload byte is reported at that byte. |
| WireCodec.SwapDetection | src/proto/wire.rs:137-145 | A payload filled for one message passes under another if and only if it is empty or the numbers agree modulo 256. |
| Statistics.AtRankBetween | src/metrics/stats.rs:85-100 | The interpolated value lies between its two neighbouring ranks. |
| Statistics.AtRankOfLine | src/metrics/stats.rs:85-100 | On equally spaced samples the interpolation is exact at every fractional rank. |
| Statistics.PercentileStands | src/metrics/stats.rs:85-100 | A percentile stands `p` percent of the way through the ranks: at rank `k` and a fraction `t` with `100 (k + t) = p (n - 1)`, it is `t` of the way from the `k`-th sample to the next. |
| Statistics.MeanIs | src/metrics/stats.rs:63-68 | Equal samples have their value as mean, and a changed sample moves the mean by the n-th part. |
| Statistics.VarianceIs | src/metrics/stats.rs:73-82 | The standard deviation is the root of a `v` with `n (n - 1) v = n S2 - S1 S1`, from the sums of the samples and of their squares. |
| Statistics.LookUpT | src/metrics/stats.rs:107-142 | The table search computes the value of the first entry that reaches the degrees of freedom. |
| Statistics.TValueNarrows | src/metrics/stats.rs:107-142 | That value is below every entry for fewer degrees of freedom: between entries the interval is narrower than the entry below would make it. |
| Statistics.PercentileMonotone | src/metrics/stats.rs:85-100 | Percentiles grow with `p`, and are the extremes at 0 and 100. |
| Statistics.SummaryIsOrdered | src/metrics/stats.rs:185-206 | min <= p50 <= p90 <= p95 <= p99 <= p999 <= max for every sample set. |
| Statistics.SummaryPercentiles | src/metrics/stats.rs:185-206 | In a summary the median, p50, p90, p95, p99 and p999 stand at 50, 50, 90, 95, 99 and 99.9 percent. |
| Statistics.SummarySpread | src/metrics/stats.rs:185-206 | The mean times `n` is the sum; the half-width times the root of `n` is the t value for `n - 1` times the deviation; the coefficient times the mean is the deviation, or zero for a mean within 2^-52 of zero. |
| Statistics.SummaryBounds | src/metrics/stats.rs:185-206 | The extremes are samples and bound all samples. |
| Statistics.MeanIsBetween | src/metrics/stats.rs:63-68 | The mean lies between the extremes. |
| Statistics.SummaryOfPermutation | src/metrics/stats.rs:185-206 | A summary depends only on the multiset of samples. |
| Statistics.OutliersOfPermutation | src/metrics/stats.rs:168-182 | So do the fences, the kept multiset and the removed count. |
| Statistics.KeptExactly | src/metrics/stats.rs:168-182 | Of four or more samples, a sample stays, as often as it occurs, if and only if it is at most one and a half times the interquartile range outside the quartiles, which stand at 25 and 75 percent. |
| Statistics.FewAreKept | src/metrics/stats.rs:168-182 | Fewer than four samples are all kept, none counted as removed. |
| Statistics.OutlierBound | src/metrics/stats.rs:168-182 | For four or more samples the kept ones are an order-preserving subsequence with every sample between the quartiles, never empty, and at most 2*ceil((n-1)/4) are removed. |
| AppMetrics.MeasureIntegrity | src/metrics/app.rs:58-95 | The single pass computes the five counts, with the release build's wrap of the span. |
| AppMetrics.IntegrityCounts | src/metrics/app.rs:58-95 | received = distinct + duplicate; lost is the number of absent values and distinct + lost the span if and only if the arrivals do not reach both ends of the 64-bit range, where nothing is reported lost. |
| AppMetrics.CountsIgnoreOrder | src/metrics/app.rs:58-95 | All counts but `reordered` ignore the order of arrival. |
| AppMetrics.ReorderedZero | src/metrics/app.rs:58-95 | `reordered` is zero if and only if the arrivals never decrease. |
| AppMetrics.ReorderedAgainstDocumentation | src/metrics/app.rs:16-17 | The code's count is at most the documented one (arrivals below some earlier one), and equal if and only if no arrival climbs below the highest so far. |
| AppMetrics.LateWithoutStep | src/metrics/app.rs:16-17 | An arrival sequence on which the two counts differ. |
| AppMetrics.MeasureJitter | src/metrics/app.rs:98-107 | The loop computes the mean absolute difference of consecutive latencies. |
| AppMetrics.JitterZero | src/metrics/app.rs:98-107 | Jitter is never negative, and zero if and only if all latencies are the same. |
| AppMetrics.JitterIsMeanGap | src/metrics/app.rs:98-107 | Jitter is the mean of the absolute differences of neighbours. |
| AppMetrics.FlowMetrics.constructor | src/metrics/app.rs:130-132 | A new accumulator is empty. |
| AppMetrics.FlowMetrics.Record | src/metrics/app.rs:149-153 | Latency and number are appended together and the bytes added; nothing else changes. |
| AppMetrics.FlowMetrics.RecordIntegrityFailure | src/metrics/app.rs:158-160 | Counts one failure and admits nothing into the statistics. |
| AppMetrics.FlowMetrics.RecordBoundaryViolation | src/metrics/app.rs:165-167 | Counts one violation and changes nothing else. |
| AppMetrics.FlowMetrics.SetDuration | src/metrics/app.rs:194-196 | Sets the duration and changes nothing else. |
| AppMetrics.FlowMetrics.Finish | src/metrics/app.rs:201-231 | The flow's summary as a function of what was recorded. |
| AppMetrics.FinishMeaning | src/metrics/app.rs:201-231 | What a flow's summary says: its own counts; a throughput that times the seconds is eight times the bytes in thousand millions, a rate that times the seconds is the messages; the mean gap as jitter; the samples summarized with or without outliers. |
| AppMetrics.LossOfRange | src/metrics/app.rs:201-231 | A flow's loss times its range is a hundred times the sequence numbers absent from that range, and zero if and only if none is, unless the range is all of the 64-bit space. |
| AppMetrics.AggregateRun | src/metrics/app.rs:259-316 | The pooling loop computes the summary of the pooled samples and summed counters of all connections. |
| AppMetrics.AggregateMeaning | src/metrics/app.rs:259-316 | A run's loss times distinct plus lost is a hundred times lost, and zero if and only if nothing is lost; throughput and rate times the seconds are its bits and messages. |
| AppMetrics.AggregateOfConcat | src/metrics/app.rs:259-316 | Pooling two groups of connections adds up every count, and weighs the jitter by the messages. |
| AppMetrics.PooledOfConcat | src/metrics/app.rs:259-270 | The pooled samples are those of all connections. |
| AppMetrics.AggregateOfPermutation | src/metrics/app.rs:259-316 | Unchanged by any permutation of the connections, with or without outlier removal. |
| AppMetrics.AggregateOfOne | src/metrics/app.rs:259-316 | On one connection it equals that connection's own `finish` in every field. |
| AppMetrics.AggregateAccountsForAll | src/metrics/app.rs:259-316 | Every message is a pooled sample or a removed outlier, and distinct or a duplicate; the loss is a percentage. |
| SystemMetrics.Aggregate | src/metrics/system.rs:857-983 | The loops compute the roll-up specified per process and per tick; none for an empty series. |
| SystemSamples.PeaksOfSamples | src/metrics/system.rs:857-983 | From the samples alone: CPU peak and p95 are the greatest, and a nearest-rank 95th percentile, over all times but the first, of what all processes used since their samples before; so for the hottest thread; and the memory peaks are the greatest sums over the processes read at one time. |
| SystemSamples.TotalsOfSamples | src/metrics/system.rs:909-983 | CPU seconds times the tick rate, and context switches, are the first-to-last rises of user plus system ticks, and of both kinds of switches, over all processes; the window is the longest life; the mean and the rate times the window give these totals back. |
| SystemSamples.TotalsByMode | src/metrics/system.rs:909-917 | Where no counter ends below where it began these are the rises of user time and of system time, and of voluntary and of other switches. |
| SystemSamples.ModesDoNotMatter | src/metrics/system.rs:795-806 | Ticks moved between user and system time, or switches between their kinds, with the sums kept, change nothing in the roll-up. |
| SystemMetrics.Pids | src/metrics/system.rs:863-869 | The distinct processes in first-seen order. |
| SystemBoard.PidsPartition | src/metrics/system.rs:863-888 | The processes are exactly those sampled, each once, and their series together hold every sample exactly once. |
| SystemMetrics.Filter | src/metrics/system.rs:888 | One process's samples, in order. |
| SystemMetrics.Post | src/metrics/system.rs:889-908 | The pass over one process puts each reading, measured against the sample before it, on the board. |
| SystemMetrics.RollUp | src/metrics/system.rs:887-919 | All processes' readings and first-to-last totals. |
| SystemMetrics.Peaks | src/metrics/system.rs:921-940 | The peak percentages and their series over the measured ticks. |
| SystemMetrics.HostFractions | src/metrics/system.rs:941-952 | The host's busy fractions between consecutive ticks. |
| SystemBoard.HostFractionsMeaning | src/metrics/system.rs:941-952 | There is one fraction for each pair of consecutive ticks between which the host's total grew, in time order: busy over total, never negative, and above one if and only if the busy counter grew by more than the total. |
| SystemBoard.UpsertUpdates | src/metrics/system.rs:899-906 | Posting a reading opens or adds to its own tick and leaves every other tick's entry alone. |
| SystemBoard.BoardGroups | src/metrics/system.rs:871-908 | For any samples the board is in time order, with an entry for exactly the times some process was read; it adds up percentages and memory over all samples of that time, each measured against its process's sample before it, with the hottest thread among them and a host reading of that time. |
| SystemBoard.ReadingsPermuted | src/metrics/system.rs:887-908 | Process by process, the roll-up takes exactly one reading per sample. |
| SystemBoard.BoardOfReadings | src/metrics/system.rs:871-908 | The host reading of an entry is the first one in process order. |
| SystemTotals.ExactTotal | src/metrics/system.rs:909-917 | A counter's saturating first-to-last total is at most the sum of its per-tick deltas, and equal if and only if the counter never falls or never rises. |
| SystemTotals.TotalsAreExact | src/metrics/system.rs:909-917 | The same for the totals over all processes, for CPU ticks and for context switches. |
| SystemTotals.BoardOfTicks | src/metrics/system.rs:887-908 | When processes are read on every tick until they are gone, the board has one entry per tick, with the summed percentages. |
| SystemTotals.MeanBelowPeak | src/metrics/system.rs:857-983 | When every process is read at increasing times on every tick until it is gone, with counters that never fall, the mean from the exact totals never exceeds the peak from the ticks. |
| SystemTotals.MeanAbovePeak | src/metrics/system.rs:857-983 | Without that it fails: over any times whose last two are the same and later than the first, a process idle until the last has a positive mean and a peak of zero. |
| SystemTotals.MeanAgainstPeak | src/metrics/system.rs:554-585 | For every interval and every bound on lateness, the mean never exceeds the peak, over all runs of the sampler that keep to the bound and all processes read in them with counters that never fall, if and only if the interval tells the ticks apart. |
| SystemTotals.SampledMeanAbovePeak | src/metrics/system.rs:554-585 | An example: at three ticks a second with one tick late, the mean of an admissible run exceeds its peak. |
| SystemMetrics.HottestIsAttained | src/metrics/system.rs:988-1000 | The hottest delta bounds every thread present in both samples and is one of them or zero. |
| SystemTotals.SmallSeriesYieldMaximum | src/metrics/system.rs:1002-1012 | The p95 is a sample at the nearest rank, and the greatest one exactly for series shorter than twenty. |
| SystemTotals.GreatestBounds | src/metrics/system.rs:928-940 | The peak bounds the per-tick series and is one of its values or zero. |
| SystemTotals.PercentileBelowPeak | src/metrics/system.rs:1002-1012 | No percentile of a series exceeds its peak. |
| SampleLoop.TakeTicks | src/metrics/system.rs:554-585 | The loop computes the tick schedule over any run of clock polls. |
| SampleLoop.ScheduleInvariant | src/metrics/system.rs:571-575 | After any run of polls the next tick is in the future and at most one interval away, and ticks are strictly increasing. |
| SampleLoop.TicksAreBounded | src/metrics/system.rs:571-575 | There are never more ticks than intervals begun. |
| SampleLoop.StampsDistinct | src/metrics/system.rs:562-575 | For every interval and every bound on lateness, all runs of the sampler give its ticks distinct `elapsed_ms` if and only if a millisecond less its greatest common divisor with the interval is below `interval - late`, or the bound is the interval itself and that is a whole number of milliseconds. |
| SampleLoop.PastBound | src/metrics/system.rs:562-575 | No multiple of the interval lies further past a millisecond than a millisecond less their greatest common divisor. |
| SampleLoop.PastAttained | src/metrics/system.rs:562-575 | Some multiple lies exactly that far past. |
| SampleLoop.StampsByInterval | src/metrics/system.rs:562-575 | Below a millisecond even ticks on time share stamps; from a millisecond on, none do that are at most `interval` less a millisecond late; for whole milliseconds none up to a whole interval late. |
| SampleLoop.TicksMayShareMillisecond | src/metrics/system.rs:562-565 | At three ticks a second a late tick and one on time carry the same `elapsed_ms`. |
| Affinity.LastMax | src/run/affinity.rs:115-125 | The search picks the last of the greatest elements. |
| Affinity.Largest | src/run/affinity.rs:115-125 | The in-place search finds that element whenever it exceeds one. |
| Affinity.SomeoneCanGive | src/run/affinity.rs:114-123 | While too many cores are promised some group has more than one: the early `break` is unreachable. |
| Affinity.ShrinkInPlace | src/run/affinity.rs:112-126 | The first loop ends and takes cores one at a time from the last of the largest groups. |
| Affinity.GrowInPlace | src/run/affinity.rs:127-136 | The second loop ends and gives all leftovers to the last of the heaviest groups. |
| Affinity.PartitionCores | src/run/affinity.rs:96-148 | The whole in-place computation yields the specified partition. |
| Affinity.LayOut | src/run/affinity.rs:137-147 | Core numbers are handed out consecutively. |
| Affinity.PartitionCovers | src/run/affinity.rs:86-111 | With a core per group the sets, in order, are exactly the cores from the reserve to the last, none empty; with fewer every set is empty. |
| Affinity.CoresHandedOut | src/run/affinity.rs:96-148 | A core is handed out if and only if it exists and every group can have one; from four cores on core 0 is left to the system. |
| Affinity.ShareIsProportional | src/run/affinity.rs:107-111 | A share above one is its weight's part of the cores rounded down, a weight of zero counting as one. |
| Affinity.SharesAreKept | src/run/affinity.rs:107-136 | Shares that fit are kept by every group but the last heaviest, which also takes all that is left over. |
| Affinity.SharesAreCut | src/run/affinity.rs:107-126 | Shares that do not fit are cut evenly, later groups first: no group below its share is below a later one, or more than one below an earlier one, and none is empty; with the sizes adding up that leaves one way to cut. |
| Affinity.ResolveCorePlan | src/commands.rs:2871-2903 | The plan is the configured one, or the automatic partition when asked for and nothing is configured. |
| Affinity.AutomaticPlan | src/commands.rs:2871-2903 | Sender and receiver each get max(1, usable/4) cores, the gateway the rest, the pools in a row; below three usable cores the run is unpinned. |
| Gateway.PortCounter.Draw | src/gateway/mod.rs:113-114 | One atomic draw of the wrapping 16-bit counter. |
| Gateway.PortCounter.ReserveLocalPort | src/gateway/mod.rs:104-123 | The first of the next 12000 draws whose port can be bound when it is drawn, else the system's own choice. |
| Gateway.DrawsDistinct | src/gateway/mod.rs:89-114 | Consecutive draws are pairwise different if and only if they fit: no wrap and at most 12000, or starting in the last 5536 values and at most 5536. |
| Gateway.NextPort | src/gateway/mod.rs:104-114 | Ports count up from 20000 to 31999 and begin again after that or when the counter wraps. |
| Gateway.AnyShortWindow | src/gateway/mod.rs:104-118 | Any 5536 consecutive draws are different. |
| Gateway.ReservationsDistinct | src/gateway/mod.rs:104-123 | Reservations whose draws fit get pairwise different ports of the reserved range, whatever is bound on the host from draw to draw. |
| Gateway.SocketsDiffer | src/net.rs:50-66 | Different ports format as different socket addresses. |
| Gateway.SocketText | src/net.rs:50-66 | An IPv4 socket is `127.0.0.1:` and the port, an IPv6 one `[::1]:` and the port. |
| Gateway.TopologiesServeTheSameRules | src/gateway/mod.rs:821-842 | One gateway or two serve the same rules. |
| Gateway.ReservePair | src/gateway/mod.rs:916-918 | Two reservations, formatted as the ingress and the middle address. |
| Gateway.WireClass | src/gateway/mod.rs:915-935 | One class's path and rule pair. |
| Gateway.WireAll | src/gateway/mod.rs:911-935 | The wiring loop over all classes, ended by the first reservation that fails. |
| Gateway.BuildMultiClassPath | src/gateway/mod.rs:899-939 | An error for no classes or no port, else the plan with two reservations per class. |
| Gateway.RulesOfClass | src/gateway/mod.rs:792-816 | The encrypt and the decrypt rule of each class have their direction, their own name, parameters and protocols, an override first and the common protocol second, and the class's traffic class. |
| Gateway.ProcessesOfTopology | src/gateway/mod.rs:821-842 | One process serves both directions, or one each, all sized for the same connections. |
| Gateway.ChainRoutes | src/gateway/mod.rs:792-816 | Along a chain whose listeners differ, traffic passes the encrypt rule, then the decrypt rule, and stops at the backend. |
| Gateway.ChainsDeliver | src/gateway/mod.rs:899-939 | When the draws fit and no backend is a reserved listener, all listeners differ and traffic to each class's ingress ends at its backend, in either topology. |
| Gateway.BuildPath | src/gateway/mod.rs:848-875 | The single path: one pair on two reservations, or an error. |
| Matrix.UnionIsSortedUnion | src/matrix.rs:1103-1108 | The long ladder is the union of two, each value once, increasing. |
| Matrix.Suite.PushUnique | src/matrix.rs:1500-1512 | Pushes a row under a new name, or refuses a name already taken and changes nothing. |
| Matrix.PushConnections | src/matrix.rs:659-690 | The throughput rows of one size, filtered by the profile's connections. |
| Matrix.PushSize | src/matrix.rs:659-726 | One size: its throughput rows, then its latency row where one is due. |
| Matrix.PushSizes | src/matrix.rs:658-727 | All sizes of one chain. |
| Matrix.PushChains | src/matrix.rs:657-728 | All chains of one interface. |
| Matrix.PushInterfaces | src/matrix.rs:656-729 | All interfaces of one profile. |
| Matrix.PushProfiles | src/matrix.rs:621-730 | All profiles eligible for the tier. |
| Matrix.AppendCipherScenarios | src/matrix.rs:448-538 | The cipher sweep: stream suites of both versions, then datagram suites. |
| Matrix.AppendHandshakeScenarios | src/matrix.rs:580-616 | The handshake sweep: both axes at every churn width. |
| Matrix.PushBlocked | src/matrix.rs:752-778 | The catalogued limitations as disabled rows. |
| Matrix.ExpandProfiles | src/matrix.rs:618-738 | The nested loops push the tier's rows in order and stop at the first duplicate name. |
| Matrix.ExpansionMeaning | src/matrix.rs:1500-1512 | Expansion succeeds if and only if all names differ, returning all rows in order; else it reports the first name generated again. |
| Matrix.ProfileCoverage | src/matrix.rs:621-730 | A row is generated if and only if it is a compatible cell of profile, interface, chain, size and connections, or the latency row of a measurable one. |
| MatrixRows.ProfileRowsWanted | src/matrix.rs:621-730 | In terms of the spec: a profile's row is there if and only if the tier and the profile want its interface, chain, size (datagrams up to 65507 bytes in plaintext and 9000 otherwise) and width, or it is the latency row of a direct chain at one connection; and it holds just these. |
| MatrixRows.CipherRowsWanted | src/matrix.rs:392-538 | A cipher row is there if and only if a wanted suite asks for it at a wanted size: over TLS in user space or in the kernel, or over DTLS, under the name that says so. |
| MatrixRows.HandshakeRowsWanted | src/matrix.rs:541-616 | The handshake rows are the four of key and group, at four connections and, but for the canonical tier, at one. |
| MatrixRows.BlockedRowsWanted | src/matrix.rs:752-778 | Every limitation has its blocked row and there are no others. |
| MatrixRows.TierRowsWanted | src/matrix.rs:618-738 | A tier has these rows and no others. |
| MatrixRows.TierOrder | src/matrix.rs:618-738 | Profile rows come first, then the stream suites of TLS 1.2 and of 1.3, the datagram suites, the handshakes and the blocked rows. |
| MatrixRows.LabelReads | src/matrix.rs:1514-1522 | A size label says the size: in kilobytes for 1, 16, 32 and 64 of them, else in bytes. |
| MatrixRows.ShortChainDrops | src/matrix.rs:670-674 | The short name of a chain is what is left of it without `scg-`. |
| MatrixRows.SanitizedIs | src/matrix.rs:1524-1537 | A sanitized suite name is the name from its first letter or digit to its last, in lower case, with `_` for anything else. |
| Matrix.NightlyWithinEverything | src/matrix.rs:355-364 | When the catalog ladder contains the nightly and the scalability ladder, every nightly row is a row of the exhaustive tier. |
| Matrix.SizeLabelInjective | src/matrix.rs:1514-1522 | Different sizes never share a label. |
| Matrix.NamesTellCellsApart | src/matrix.rs:667-674 | On one chain of one interface of one profile, equal names mean equal size and connections. |
| MatrixNames.SharedName | src/matrix.rs:667-707 | Without separators inside interfaces and short chains, two profile rows share a name if and only if they have the same coordinates, or one is the latency row of `p` and the other a row of a profile called `lat_p` at one connection on the direct chain. |
| MatrixNames.ProfileNamesDistinct | src/matrix.rs:656-729 | With plain coordinates, nothing listed twice and distinct ids, all profile rows have names of their own if and only if no profile takes the name of another's latency row. |
| MatrixNames.LatencyNameTaken | src/matrix.rs:667-707 | Beside any profile with a latency row and one connection on its ladder, a copy of it called `lat_` and its id makes the whole expansion fail. |
| MatrixNames.CipherNames | src/matrix.rs:448-538 | The rows of the cipher sweep have names of their own if and only if the sanitized suite names differ within a TLS version and the sizes swept are listed once. |
| MatrixNames.HandshakeNames | src/matrix.rs:580-616 | The rows of the handshake sweep always have names of their own. |
| MatrixNames.BlockedNames | src/matrix.rs:752-778 | The rows of the limitations have names of their own if and only if no limitation is named twice. |
| MatrixNames.TierParts | src/matrix.rs:618-738 | A tier's names are distinct if and only if those of its profile, cipher, handshake and limitation rows are: the four never share one. |
| MatrixNames.TierNames | src/matrix.rs:618-738 | With plain profiles a whole tier expands if and only if no profile takes the name of another's latency row, the cipher sweep repeats no sanitized suite name and no size, and no limitation is named twice. |
| Sink.SinkTally.constructor | scripts/wire_probe.py:115-132 | A new tally is empty. |
| Sink.SinkTally.Reset | scripts/wire_probe.py:134-143 | Back to empty, keeping the expected field. |
| Sink.SinkTally.Record | scripts/wire_probe.py:145-160 | One message is added to every counter and its connection's high-water mark. |
| Sink.BelowCount | scripts/wire_probe.py:166-168 | The expected count is the number of sequence numbers at or below their connection's mark. |
| Sink.LostMeaning | scripts/wire_probe.py:162-170 | The reported loss is the numbers at or below their connection's high-water mark that never arrived, less the duplicates; exact if and only if there are no duplicates or nothing is missing. |
| Sink.ReportMeaning | scripts/wire_probe.py:162-191 | A burst's report: its messages and bytes; the time from its first to its last arrival; a rate that times that time is its bits; a loss that times the numbers up to each connection's highest is a hundred times the reported lost; and how many messages showed the field and how many carried it. |
| Sink.NumberSplits | scripts/wire_probe.py:145-148 | The connection is the number above 2^48, the count below it. |
| Sink.ShortIsNone | scripts/wire_probe.py:259-262 | A datagram is a message if and only if it has at least eight bytes. |
| Sink.VerdictMeaning | scripts/wire_probe.py:181-189 | A verdict is given if and only if the field was observed, and is a pass if and only if every observed message carried it. |
| Sink.BurstReporter.Flush | scripts/wire_probe.py:210-220 | A non-empty tally becomes the next numbered line and is reset; an empty one changes nothing. |
| Sink.BurstReporter.MaybeFlush | scripts/wire_probe.py:222-225 | Flushes exactly when the last message is at least the idle gap old. |
| Sink.Receive | scripts/wire_probe.py:243-262 | One pass of the receive loop keeps the lines and the tally those of the bursts seen. |
| Sink.SinkUdp | scripts/wire_probe.py:228-264 | Over any run the lines are the reports of the bursts, the last one flushed at the deadline, and the tally ends empty. |
| Sink.BurstsArePartition | scripts/wire_probe.py:246-264 | The bursts in order, then the pending messages, are exactly the messages received; no burst is empty. |
| Sink.NothingIsLostBetweenBursts | scripts/wire_probe.py:210-264 | Reported counts and bytes plus the pending tally equal what was received. |
| Sink.SameBurst | scripts/wire_probe.py:222-262 | Two messages received one after the other are in one burst if and only if no timeout in between found the sink idle for the gap. |
| Sink.BurstsAreApart | scripts/wire_probe.py:222-264 | On a clock that does not go back, messages of different bursts are at least the idle gap apart. |

## Left out

- Floating point: `f64` is `real`, so nothing is said about rounding, infinities or not-a-number; the not-a-number percentile of an empty slice is the absent value.
- The square root is a parameter of the statistics; the printing of floats (`num`) and the spelling of the key and column labels are parameters of the row model, with the assumption that labels are distinct and single-line.
- Integer widths, except where they matter: the span in `integrity`, the port counter and the wire fields wrap or are bounded as in the source; other counters do not overflow.
- Sorting by `sort_by`, `sort` and `sort_unstable` is the library's: modelled as a function that returns the one ordered arrangement.
- Statistics.OutlierBound: `remove_outliers_iqr` and `summarize` sort a local copy in place; they are functions here, since the copy is never seen.
- ResultDirectory.ResultDir.RecordScenario: a file write is atomic and directories appear with their first file, `scenarios` before any path through it; torn writes, the `system_metrics` directory with its per-process files and the list of interface comparisons are not modelled, and `runs.csv`, `saturation.csv`, `stream_summary.csv` and `hotreload.csv` have arbitrary texts.
- ResultDirectory.ResultDir.RunScenario: what a scenario measures, and whether it is measured or skipped, is an input.
- ResultDirectory.ResultDir.RunConfig: the progress counters and lines and the maps of calibration ceilings that the loop carries along are left out.
- ResultDirectory.ResultDir.Finish: the writes of `skipped.csv`, `meta.csv` and `interface_comparison.csv` to the root, and a death at one of them; no table reads these files.
- `sysinfo.csv`: written from values no table reads.
- Csv.ParseSummary: cells stay texts; the numeric and boolean columns the report parses them into are left out.
- SystemTotals.MeanBelowPeak: covers processes read on every tick, at increasing times, until they exit; the sampler's ticks may share a millisecond, and `SystemTotals.MeanAgainstPeak` says exactly when that matters. A process missed on a tick in between is not covered. The maps keyed by `elapsed_ms` share their keys and are one ordered list here.
- Gateway.BuildMultiClassPath: provider parameters of a rule are opaque texts; pool sizing, the management template and process start are not modelled. Concurrent reservations are draws of one shared counter in some order. What can be bound, and the system's fallback port, may change from draw to draw and between reservations.
- MatrixNames.TierNames: is about tiers whose profiles are plain: distinct ids, nothing listed twice, and no separator inside an interface or a short chain. For any other spec `Matrix.ExpansionMeaning` says what happens, in terms of the generated names.
- Matrix.ExpandProfiles: a row holds its coordinates and protocol; the sender's target address, which depends on the row's position, the description text and the stamped flags are left out, as are the smoke, hot-reload and interface-comparison documents, which add only flatter loops over the same `push_unique`.
- Sink.SinkUdp: the UDP sink with a burst reporter, on one thread; the TCP sink's worker threads report and reset under separate lock acquisitions. Reported ratios are not rounded.
- Process spawning, sockets, signals, gRPC, `tc`, `perf`, bpftrace and the parsing of `/proc`: input and output.
- The run engine, saturation sweep, transports and stream scheduler: only their result values appear.
- Configuration schema, command line, console output and validation messages.
