# traq in Dafny

traq is a command-line time tracker. Each day of a project has its own
file, `<data dir>/<project>/<year>/<year>-<MM>-<DD>`. Each line of that
file is one event, `<timestamp>;<tag>;<comment>`. A tag is open from its
line until the next `stop` or the next different tag. That elapsed time
is charged to the tag.

The model covers these parts of the program:

- Writing a line. `Entry` writes the command as given. `WriteToFile` and
  `FileSystemStorage.Store` first turn every command except `stop` into
  a `#` tag.
- Reading a file. `ContentLoader` comes in two revisions. `RunningLoader`
  closes a day still in progress with a synthetic stop line.
- Decoding a line with `ReadEntry`.
- Summing one day. There are two revisions of `SumFile`:
  - the entry-based one of evaluation.go;
  - the line-based one of traq.go and src/traq.go.
- Summing a range of days with `SummarizeDate`, in both revisions.
- Listing a month's days with `DatesInMonth`.
- The monthly summary of cmd/traq-summary: the leave lists, the expected
  work time of a range, and the tracked total.

The model is organised as follows:

- Go's `time.Time` is an instant in Unix seconds plus the fixed offset
  of its zone (`Calendar`).
- Calendar arithmetic is proleptic Gregorian, proved to round-trip.
- `time.Parse` and `Format` with traq's layout are function parameters
  (`Codec.Parser`, `Codec.Formatter`).
- A file read is an `Option<string>`: `None` when the read fails.
- `time.Now()` is a parameter.
- A Go panic (an index out of range) is the `Panics` case of
  `Wrappers.Run`.
- Maps are `map<string, int>`, with Go's missing-key-reads-zero
  convention (`Totals.Get`).

The two revisions of `SumFile` behave differently.

The entry-based `SumFile` (`EntrySum.SumEntries`):

- makes every tag a key;
- treats an empty tag like a stop;
- charges a trailing open tag up to 23:59:59 of its own day;
- deletes `""` and `stop` at the end.

The line-based `SumFile` (`LineSum.SumLines`):

- skips blank lines;
- resets on an empty tag without charging the open tag;
- never charges a trailing open tag;
- returns the partial totals, with the key `""` still in them, at the
  first unparsable timestamp;
- panics on a parseable line that has no `;`.

The model states each revision as the code has it.

traq.go and src/traq.go hold the same `DatesInMonth`, `ContentLoader`,
`SumFile`, `Entry` and `WriteToFile`. The table cites traq.go for them.
Their `FilePath` builds the same path but reads the data directory at
different times, as noted under "## Left out".

## Model

| member | source | states |
|---|---|---|
| Codec.ReadEntry | loader.go:17-34 | A line that does not split into exactly three `;` fields, or whose first field does not parse, gives the zero entry. Otherwise the entry holds the parsed time, the second field and the third field, and the line is exactly `ts;tag;comment`. |
| Codec.ReadEntryRoundTrip | loader.go:17-34 | Three `;`-free fields joined by `;`, with a parseable first field, decode to those three fields. |
| Codec.SemicolonInCommentLosesEntry | loader.go:20-23 | A `;` inside the comment makes four or more fields, so the whole entry decodes to the zero entry. |
| Codec.Entry | traq.go:167-169 | The written line is the formatted date, `;`, the command, `;`, then a newline, with no comment. |
| Codec.EntryReadsBack | traq.go:167-169 | An `Entry` line splits on newlines into its record and an empty tail. The record decodes back to the date and the command with an empty comment. |
| Loader.ContentLoaderKeep | traq.go:41-44 | Fails exactly when the read fails. Returns at least one line, none holding a newline. Joining the lines gives the content back. The last line is empty exactly when the content is empty or ends in a newline. |
| Loader.ContentLoaderStrip | loader.go:38-45 | Fails exactly when the read fails. No line holds a newline. There are no lines exactly when the content is empty. |
| Loader.StripVersusKeep | loader.go:38-45 | The two revisions differ by exactly the trailing empty line that newline-terminated content yields, and by nothing else. |
| Loader.StripRestoresContent | loader.go:38-45 | The stripped lines, joined and given back the final newline when the content had one, are the content. |
| Loader.Running | traq.go:48-66 | A failed read passes through unchanged. Otherwise it panics exactly when there are no lines. If the last line holds `;stop;` the lines are returned unchanged; if not, exactly the stop line is appended. |
| Loader.StopLineAt | app.go:28 | The synthetic line is `Entry(now, "stop")` and contains the `;stop;` marker. |
| Loader.RunningLoaderKeepLines | traq.go:48-66 | On a readable file the keeping revision returns the file's lines, plus the stop line exactly when the last line lacks `;stop;`. |
| Loader.RunningIdempotent | traq.go:52-54 | Applying the running policy to its own output changes nothing, because the appended line holds the marker. |
| Loader.RunningLoaderStripPanicsIff | loader.go:49-68 | The loader.go revision panics exactly on a readable empty file. |
| Loader.RunningLoaderKeepNeverPanics | traq.go:48-66 | The traq.go revision never panics, because a split always has a piece. |
| Loader.NewlineTerminatedAlwaysGetsStop | traq.go:48-66 | With the keeping revision, every newline-terminated file gets the stop line, even one that already ends in a stop. |
| Loader.OneEntryLineCounts | loader_test.go:10-41 | A file holding one written entry reads as one line (loader.go), two lines (traq.go) and three lines through traq.go's `RunningLoader`. |
| Totals.Charge | evaluation.go:41 | Charging adds `d` to key `k`, creates the key if needed, and leaves every other key's reading alone. |
| Totals.Merge | evaluation.go:89-96 | The merged map has the union of the keys, and each value is the sum of the two readings. |
| Totals.Summarize | evaluation.go:81-101 | The summary's keys are exactly the keys of some successfully read day. Each value is the reference sum over the read days. |
| Totals.SummarizeEmpty | evaluation.go:81-101 | An empty range summarizes to no keys. |
| Totals.FailedDayContributesNothing | evaluation.go:86 | A day whose read failed is the same as leaving it out of the range. |
| Totals.SumAtPermutation | evaluation.go:83-98 | The per-key totals do not depend on the order of the days. |
| Totals.SummarizeOrderIndependent | evaluation.go:83-98 | The summary map does not depend on the order of the days. |
| Totals.MergeAddsSums | evaluation.go:89-96 | Merging adds the grand totals: the sum over the merged map is the sum of the two sums. |
| Totals.SumValues | cmd/traq-summary/main.go:98-104 | The loop's total is the sum of all values of the map, whatever the iteration order. |
| EntrySum.Step | evaluation.go:33-50 | One entry sets the time to the entry's date. It opens its tag, or none after a stop. It adds the entry's tag and the open tag as keys. It charges the open tag the elapsed time exactly on a stop or a change of tag. |
| EntrySum.Fold | evaluation.go:33-50 | After the loop the open tag is never `stop`; it is either none or one of the entries' tags. The keys are the tags, plus `""` once there is an entry. The time is the last entry's date. |
| EntrySum.FoldSplit | evaluation.go:33-50 | The loop over a concatenation is the loop over the second part, continued from the state after the first. |
| EntrySum.Close | evaluation.go:54-61 | The trailing open tag is charged up to the end of its day. The keys `""` and `stop` are then removed, and no other key is touched. |
| EntrySum.SumEntries | evaluation.go:27-64 | The result's keys are exactly the entries' tags other than `""` and `stop`. |
| EntrySum.SumEntriesEmpty | evaluation.go:27-64 | No entries give no totals. |
| EntrySum.WorkThenStop | evaluation.go:39-42 | A tag followed by a stop is charged exactly the time between them. |
| EntrySum.SwitchThenStop | evaluation.go:43-47 | Switching tags charges the first tag up to the switch and the second up to the stop. |
| EntrySum.PlayWorkExample | traq_test.go:168-188 | The tests' log from 20:00:00, through 21:45:33, to 23:24:49 (+01:00) gives `#play` 6333 seconds and `#work` 5956. |
| EntrySum.LoneTagClosedAtEndOfDay | evaluation.go:54-58 | A lone tag is charged up to 23:59:59 of its own local day, which is 43199 seconds from noon. |
| EntrySum.EmptyTagActsAsStop | evaluation.go:39-47 | Anywhere in the input, an entry with an empty tag gives the same totals as a stop at the same time. |
| EntrySum.TrailingTagEqualsExplicitStop | evaluation.go:52-58 | The end-of-day closure gives the same totals as an explicit stop at 23:59:59 of the last entry's day. |
| EntrySum.RecordedOnDay | evaluation.go:27-64 | A key of one day's totals is exactly a tag other than `""` and `stop` found on one of its lines. |
| EntrySum.SeenIffRecorded | evaluation.go:81-101 | A key is seen in the range exactly when it is a tag other than `""` and `stop` on some successfully read day. |
| EntrySum.SummarizeDate | evaluation.go:81-101 | The keys are the tags other than `""` and `stop` found on a successfully read day. Each value is the sum of that tag's totals over the read days. |
| LineSum.Apply | traq.go:83-96 | An empty tag closes the open tag without charging it and sets `""` to 0. Every key's value after the line is stated, `""` included. A stop charges the open tag the time since the previous line and closes it. A different tag charges the open tag and opens itself. The same tag again changes nothing but the time. |
| LineSum.StepLine | traq.go:77-101 | A stopped scan stays stopped, and a blank line changes nothing. A non-blank line whose first field does not parse aborts with the totals so far. The step panics exactly when the first field parses but there is no second field. The scan never opens `stop` and never gives `stop` a key. |
| LineSum.SumLinesFrom | traq.go:71-106 | A successful result has neither `""` nor `stop` as a key. The partial result of an unparsable line has no `stop` key. |
| LineSum.TrailingBlankSkipped | traq.go:78 | A trailing blank line, as newline-terminated content yields, changes nothing. |
| LineSum.BlankLineSkipped | traq.go:78 | A blank line anywhere changes nothing. |
| LineSum.EmptyFileSumsToNothing | traq_test.go:137-149 | The content of an empty file, `[""]`, sums to no tags and no error. |
| LineSum.WorkThenStop | traq.go:86-89 | A tag followed by a stop is charged exactly the time between them. |
| LineSum.SwitchThenStop | traq.go:90-94 | Switching tags charges the first tag up to the switch and the second up to the stop. |
| LineSum.StopBeforeSwitchChangesNothing | traq.go:86-94 | A stop at the moment of a switch gives the same totals as the switch alone. |
| LineSum.PlayWorkExample | traq_test.go:168-188 | The tests' three-line log, as given and with a trailing blank line, gives `#play` 6333 and `#work` 5956. |
| LineSum.PlayStopWorkExample | traq_test.go:189-210 | The tests' four-line log with a stop at the switch gives the same 6333 and 5956. |
| LineSum.WorkExample | traq_test.go:151-166 | `#work` at 21:45:33 and the stop at 23:24:49 give 5956 seconds. |
| LineSum.EmptyTagDiscardsOpenTag | traq.go:83-85 | After a tag, an empty tag and a stop, the tag has no key at all: its time is lost. |
| LineSum.OpenTagNeverCharged | traq.go:71-106 | A log of a single open tag succeeds with no keys. |
| LineSum.TrailingOpenTagNoKey | traq.go:71-106 | A tag opened on the last line, and never charged before, gets no key. |
| LineSum.BadLineAborts | traq.go:97-99 | The first unparsable non-blank line ends the scan with the totals so far, `""` included, and the lines after it are ignored. |
| LineSum.StoppedStaysStopped | traq.go:98 | Once the scan has aborted or panicked, no further line changes it. |
| LineSum.DuplicateLineChangesNothing | traq.go:77-101 | Repeating any line right after itself leaves the result unchanged. |
| LineSum.OriginIrrelevant | traq.go:75 | Whether the result succeeds or panics, and on success its totals, do not depend on the initial time. |
| EntryOrder.ChronologicalEntryTotals | evaluation.go:27-64 | On entries whose dates never go backwards, every reported total is non-negative. Their sum is at most the time from the first entry to 23:59:59 of the last entry's day. |
| LineOrder.ChronologicalTotals | traq.go:71-106 | On a log whose times never go backwards, a successful result has non-negative totals. Their sum is at most the time from the first record to the last. |
| LineDays.DayLineTotals | traq.go:128-129 | One day's content is split on newlines and summed. The day panics exactly when `SumFile` panics. Otherwise its totals are the success or the partial totals, with the error dropped. |
| LineDays.DailyTotals | traq.go:125-140 | One entry per date, `None` exactly for an unreadable file, and the day's totals otherwise. |
| LineDays.SummarizeDateLines | traq.go:123-146 | Returns exactly when no readable day panics. The value is the merge of the per-day totals. |
| LineDays.NoDatesNoTags | traq.go:123-146 | An empty range summarizes to no tags. |
| LineDays.UnreadableDaySkipped | traq.go:128 | An unreadable day leaves the summary as if it were not in the range. |
| LineDays.DateOrderIrrelevant | traq.go:125-140 | The summary does not depend on the order of the dates. |
| LineDays.NoDayPanicsConcat | traq.go:125-140 | A range is panic-free exactly when both of its parts are. |
| LineDays.PartialDayTotals | traq.go:97-99 | A day with an empty-tag line and then an unparsable line contributes the partial map `{"": 0}`, keeping the key `""`. |
| LineDays.PartialDayKeepsEmptyKey | traq.go:129-138 | The error of such a day is dropped, so the summary of that one day is `{"": 0}`, with the key `""` that a successful day never has. |
| LineDays.StopLineIsStopRecord | traq.go:56 | The synthetic stop line is a well-formed stop record at `now`, followed by a newline in its comment field. |
| LineDays.StopAfterStopHarmless | traq.go:48-66 | After a log whose tag is closed, the stop line changes no total. |
| LineDays.RunningStopClosesOpenTag | traq.go:48-66 | After a log whose last tag is open, the stop line charges that tag the time up to `now`, and nothing else. |
| LineDays.RunningLoaderKeepHarmless | traq.go:48-66 | On a readable file whose log is closed, `RunningLoader` gives the same totals as the plain lines. |
| Storage.DayPathRoundTrip | storage.go:24-26 | A day's path reads back to its date. |
| Storage.DayPathInjective | storage.go:24-26 | Different dates from year 0 on get different paths. |
| Storage.PathIdentifiesDay | storage.go:24-26 | Two instants share a log file exactly when they fall on the same local day. |
| Storage.FilePathExample | traq_test.go:129-135 | 3 September 1986 under project `example` is `<data dir>/example/1986/1986-09-03`. |
| Storage.StoredTag | storage.go:29-33 | The stored tag is `stop` exactly when the command is `stop`. Otherwise it is `#` followed by the command. |
| Storage.StoredTagInjective | storage.go:29-33 | Different commands are stored as different tags. |
| Storage.StoredTagNotIdempotent | storage.go:29-33 | A tag that already has its `#` gets a second one. |
| Storage.StoreDiscardsComment | storage.go:45 | The entry's comment is never written. |
| Storage.WriteToFileReadsBack | traq.go:173-187 | Read with the stripping `ContentLoader` of loader.go:38-45, one write gives a file of one line, `<date>;<tag>;`, where the tag is `stop` for `stop` and `#` plus the command otherwise. The line decodes to that date and tag with no comment. Read with traq.go's own `ContentLoader` (traq.go:41-44), the same line is followed by `""`. |
| Storage.WriteToFileTwiceReadsBack | traq.go:173-187 | A second write appends a second line rather than replacing the first. Read with the stripping `ContentLoader` of loader.go:38-45, each of the two lines is `<date>;<tag>;` for its own write and decodes to its own date and tag. traq.go's own `ContentLoader` (traq.go:41-44) gives the same two lines followed by `""`. |
| Storage.WriteToFileExample | traq_test.go:98-127 | Read with the stripping `ContentLoader` of loader.go:38-45, writing `test` and then `stop` gives first the single line `<start>;#test;`, then the second line `<end>;stop;`. traq.go's own `ContentLoader` (traq.go:41-44) reads the first file as two lines, `<start>;#test;` and `""`. |
| Storage.StoreReadsBack | storage_test.go:15-24 | One store gives a file of one line, `<date>;<normalised tag>;`, which decodes to the date and the normalised tag with no comment. |
| Storage.StoreTwiceReadsBack | storage_test.go:15-33 | Two stores give a file of two lines, `<date>;<normalised tag>;` each, each decoding to its own entry. |
| Calendar.CivilFromDays | traq.go:26 | The date of a day number is valid and converts back to that day number. |
| Calendar.CivilRoundTrip | traq.go:20 | Converting a valid date to its day number and back is the identity. |
| Calendar.DaysFromCivilInjective | traq.go:20 | Distinct valid dates have distinct day numbers. |
| Calendar.EndOfDay | evaluation.go:55 | 23:59:59 of the instant's own local day is on the same day, less than a day later, and the next second is the next day. |
| Calendar.EndOfDayIsClockTime | evaluation.go:55 | That closing time is `time.Date(year, month, day, 23, 59, 59, 0, zone)` of the instant. |
| Calendar.NextDay | traq.go:30 | Adding 24 hours to a UTC midnight moves to a valid date whose day number is one more. |
| Calendar.DatesInMonth | traq.go:24-37 | Starts at UTC midnight of the first of the month, then steps 24 hours at a time. For months 1-12 it lists exactly that month's days, in order. For any other month it lists the one start date. |
| Calendar.September1986 | traq_test.go:11-25 | September 1986 has 30 days, begins on a Monday and ends on a Tuesday. |
| Summary.Find | cmd/traq-summary/main.go:47-54 | The scan finds the date exactly when some listed date is the same instant. |
| Summary.IsHoliday | cmd/traq-summary/main.go:47-54 | True exactly when a holiday is the same instant as the date. |
| Summary.IsVacation | cmd/traq-summary/main.go:56-63 | True exactly when a vacation day is the same instant as the date. |
| Summary.IsSickDay | cmd/traq-summary/main.go:65-72 | True exactly when a sick day is the same instant as the date. |
| Summary.Steps | cmd/traq-summary/main.go:78 | The loop visits exactly the 24-hour steps from the start that lie before the end. |
| Summary.ExpectedWorkTime | cmd/traq-summary/main.go:74-96 | The loop's result is nine hours times each visited day that is a Monday to Friday and on no leave list. |
| Summary.WholeWorkDays | cmd/traq-summary/main.go:89-91 | The expected time is nine hours per due day, so it is between zero and nine hours per day of the range. |
| Summary.EmptyRangeExpectsNothing | cmd/traq-summary/main.go:78 | A start not before the end expects nothing. |
| Summary.WeekendAddsNothing | cmd/traq-summary/main.go:79-92 | A Saturday or Sunday adds nothing. |
| Summary.OneMoreDay | cmd/traq-summary/main.go:79-92 | A day on leave adds nothing. A weekday not on leave adds exactly nine hours. |
| Summary.MoreLeaveLessWork | cmd/traq-summary/main.go:89 | More leave never expects more work. |
| Summary.AddingHolidayNeverIncreases | cmd/traq-summary/main.go:89 | Adding a holiday never increases the expected time. |
| Summary.AddingVacationNeverIncreases | cmd/traq-summary/main.go:89 | Adding a vacation day never increases the expected time. |
| Summary.AddingSickDayNeverIncreases | cmd/traq-summary/main.go:89 | Adding a sick day never increases the expected time. |
| Summary.FullWeek | cmd/traq-summary/main.go:79-92 | Without leave, the seven days from a Monday expect five working days. |
| Text.Split | loader.go:20 | `strings.Split` gives at least one piece. No piece holds the separator. Joining the pieces gives the string back. |
| Text.SplitJoin | loader.go:20 | Splitting a join of separator-free pieces gives back the pieces. |

## Left out

- Printing: `PrintDate`, `EvaluateDate` and `PrintSummary`. This includes the
  `%2.4f` hour output and the `%%` separators. Printing is output only.
- Command-line handling:
  - the `main` functions of traq.go, app.go, cmd/traq/main.go and
    cmd/traq-summary/main.go;
  - flag parsing and the choice between `ContentLoader` and
    `RunningLoader`;
  - the end of the summary range at cmd/traq-summary/main.go:126. Day
    −1 of the next month is normalised by `time.Date` to two days before
    the first of that month, so the expected-work walk stops before the
    month's second-to-last day.

  These only pick the arguments of the modelled functions.
- The leave file: reading and JSON decoding of `Leave` (`JSONDate`). The
  model takes the three decoded lists as its input.
- File system effects:
  - `MkdirAll` and `OpenFile`, and the error `Store` returns when opening
    fails;
  - `Close`;
  - `os.Getenv("TRAQ_DATA_DIR")`, which is the `dataDir` parameter of
    `Storage.FilePath`. traq.go reads the variable on every call.
    src/traq.go reads it once, when the package is initialised, so a
    change made later, such as the tests' `os.Setenv`, reaches only
    traq.go's `FilePath`. The model does not tell the two apart.

  A file's content is the string of its lines. A read is `Some(content)`
  or `None`.
- `FileSystemStorage.Content`: it calls the storage's loader on `Path`,
  and both are modelled separately. evaluation.go's `SumFile` takes
  entries while `Content` returns lines. The model decodes each line
  with `ReadEntry` in between (`EntrySum.DecodeAll`); that step is the
  model's own.
- The test helpers of test_helper.go, which set up the environment for
  the tests.
- `time.Parse` and `Time.Format` with traq's layout. They are the
  `Parser` and `Formatter` parameters. Lemmas that need a round trip
  assume it through `Codec.Encodable`.
- Time zones with daylight saving time. A zone is a fixed offset, which
  covers UTC and the zones the tests use.
- int64 overflow of the totals and of the expected work time. Integers
  are unbounded; real logs stay far below the bound.
- The regular expression `;stop;`. It is a literal pattern, modelled as a
  substring test (`Text.Contains`).
- The three-argument `Entry(date, command, comment)` that storage.go
  calls. Its definition is not part of this model. `Storage.StoreLine`
  treats it as the two-argument `Entry` with an empty comment, as the
  storage test expects.
- Loader.RunningLoaderStrip, Loader.RunningLoaderKeep, Storage.StoreLine,
  Storage.WriteToFileLine, Storage.Path, Storage.FilePath, LineSum.SumLines,
  EntrySum.DecodeAll and EntrySum.DayTotals: these compose modelled parts. Their
  properties are stated by the lemmas in the table rather than by their
  own contracts.
- Which `ContentLoader` the `WriteToFile` test reads with. traq_test.go
  expects one line after one write. That count holds only for the
  stripping `ContentLoader` of loader.go. traq.go's own `ContentLoader`
  gives two lines, the second one empty. traq.go and loader.go both
  declare `ContentLoader` in package `main`, so they come from different
  revisions. The model states both
  readings and does not decide which revision the test was written
  against.
- Storage.DayPathRoundTrip: proved for years from 0 on only. `%d` of a
  negative year starts with a minus sign, which `ReadDayPath` does not
  read back.
- Storage.PathIdentifiesDay: also limited to years from 0 on, for the
  same reason.
- Storage.DayPathInjective: also limited to years from 0 on, for the
  same reason.
- Summary.ExpectedWorkTime: `date.Add(24 * time.Hour)` keeps the zone.
  In a zone with daylight saving time the weekday of a step could differ
  from the model's fixed-offset weekday.
- Totals.SumValues: states the sum without int64 wrap-around.
