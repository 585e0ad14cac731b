# parse-test-reports, modelled in Dafny

This project models the decision core of the test-report plugin in Dafny.
It covers three parts:
- **Resolving report files.** A comma-separated path setting goes through
  `getPaths`, `expandTilde`, glob expansion and `uniqueItems`, which
  together make `getFiles`.
- **The two verdicts.** `ParseTests` counts the tests of every report file
  and fails when any test failed or errored. `ParseTestsWithQuarantine`
  counts the same way, then checks each failed test against a quarantine
  list: is the test quarantined (`isQuarantined`), and has its quarantine
  expired (`isExpired`)?
- **Suite totals.** `Suite.Aggregate` from the bundled JUnit types
  recomputes a suite's totals.

Modules:

- `Seqs`: generic sequence identities, plus `Count` (how many entries
  equal a value).
- `Wrappers`: `Option` and `Result`.
- `GoStrings`: the parts of Go's standard library the parser relies on:
  - `strings.Split` and `strings.TrimSpace`, with `unicode.IsSpace` white space;
  - `%d` formatting;
  - zero-padded digits.
- `Dates`: `time.Parse` with the layout `2006-01-02`. It reads exactly four
  year digits, two month digits and two day digits, and checks that the
  date exists in the calendar. It also defines one abstract timeline of
  instants (a day number plus the time elapsed since that day's midnight)
  with `Before` and `After`.
- `GoJunit`:
  - the status constants and the `Result`, `Test`, `Totals` and `Suite` records;
  - the recursive totals function `SuiteTotals`;
  - `SuiteRef.Aggregate`, an imperative method on a class that holds the
    suite, as the Go method does through its `*Suite` receiver.
- `Paths`: `getPaths`, `uniqueItems`, `expandTilde`, `isURL` and
  `getFiles`. Loops become methods; straight-line code becomes functions.
  The home directory, `filepath.Join` and the glob library are fields of
  an `Environment` parameter.
- `Quarantine`: the decoded YAML document as an untyped value tree
  (`Str | List | Map | Other`). This keeps the source's run-time type
  checks. `isQuarantined` and `isExpired` are early-exit scans proved
  against the predicates `Quarantined` and `Expired`.
- `Report`: the `TestStats` record, and the two verdict methods with their
  per-file and per-suite loops, each a method of its own. The XML reader
  is a parameter `ingest: string -> Option<seq<Suite>>`, where `None`
  means the file could not be read or parsed. The current time is a
  parameter `now`.

Where the code's behaviour is easy to misread, or departs from what its
own comments say, the model follows the code:

- A path piece is dropped only when it is empty **before** trimming. A
  piece of white space only is therefore kept as `""` (parser.go:23-26;
  `Paths.GetPathsBlankPiece`).
- `isExpired` compares now with **midnight** of the end date. A
  quarantine whose end date is today has therefore expired once the day
  has begun, although its doc comment speaks of the current date lying
  outside the date range (parser.go:289, 324; `Quarantine.WindowEdges`).
- The doc comment of `isQuarantined` says it respects the date range
  (parser.go:260), but the function looks only at names; the dates are
  left to `isExpired` (`Quarantine.IsQuarantined`).
- `isExpired` considers **every** entry that names the test, not only the
  first one. An entry whose window still holds does not hide a later
  entry that has expired (`Quarantine.LaterEntryExpires`).
- The comment on `Totals` states `Tests == Passed + Skipped + Failed +
  Error` (gojunit/types.go:41-46). It holds only when every test has one
  of the four known statuses (`GoJunit.TotalsBalanced`,
  `Report.StatsBalanced`).

The unit tests disagree with the code in three places, and the model
follows the code in each:
- The tests expect lists of failed, quarantined and expired identifiers,
  but `TestStats` has only five counters (plugin.go:17-23).
- The tests expect an error when no files match, but the code returns no
  error.
- The tests expect a different message text; the code's text is the one
  `Report.Message` models.

## Model

| member | source | states |
|---|---|---|
| GoStrings.Split | parser.go:21 | strings.Split on one separator: there is at least one piece, no piece holds the separator, and joining the pieces with it gives the input back |
| GoStrings.SplitJoin | parser.go:21 | Split inverts Join on pieces free of the separator |
| GoStrings.TrimSpace | parser.go:26 | the result of strings.TrimSpace is no longer than the input and neither starts nor ends with white space |
| GoStrings.TrimSpaceCuts | parser.go:26 | TrimSpace returns a contiguous slice of the input, and everything cut off before and after it is white space |
| GoStrings.TrimSpaceTrimmed | parser.go:26 | a string with no white space at either end is returned unchanged |
| GoStrings.TrimSpaceBlank | parser.go:26 | TrimSpace yields the empty string exactly when the input is all white space |
| GoStrings.TrimSpaceAround | parser.go:26 | TrimSpace removes exactly the white space around a non-empty trimmed string |
| GoStrings.Decimal | parser.go:77 | the `%d` spelling of a count is a non-empty string of decimal digits, with no leading zero, whose value is the count |
| GoStrings.ReadNumberDecimal | parser.go:77 | a count printed with `%d` reads back from the text, whatever non-digit text follows it, and reading stops exactly at its last digit |
| GoStrings.CountedReads | parser.go:255 | a sentence printed as "<words>%d<words>%d<words>" gives back its leading words, the first count, the middle words and the second count |
| Dates.ParseDate | parser.go:312-322 | a date that parses with the layout 2006-01-02 exists in the calendar (month 1..12, day within the month) |
| Dates.ParseDateSpells | parser.go:312-322 | only the canonical zero-padded YYYY-MM-DD spelling parses: a parsed date spells back to the very input |
| Dates.ParseFormatRoundTrip | parser.go:312-322 | every valid date parses back from its own YYYY-MM-DD spelling |
| Dates.NextDate | parser.go:312-324 | the calendar day after a valid date is itself a valid date, across month and year ends |
| Dates.NextDateDayNumber | parser.go:312-324 | consecutive calendar days lie one day apart on the timeline the dates are compared on, at the end of a month, of February in leap and common years, and of a year |
| Dates.YearLength | parser.go:312-324 | a year has 366 days when it is a leap year and 365 otherwise |
| Dates.LeapYearsStep | parser.go:312-324 | the count of leap years before a year grows by one exactly past a leap year |
| Paths.GetPaths | parser.go:19-30 | getPaths returns the comma-separated pieces in order, each trimmed, dropping only the pieces that were empty before trimming |
| Paths.KeptMembers | parser.go:19-30 | a string is among the paths exactly when it is the trimmed form of some non-empty piece, so no path starts or ends with white space |
| Paths.GetPathsJoin | parser.go:19-30 | non-empty, trimmed, comma-free paths joined with commas come back unchanged |
| Paths.GetPathsEmpty | parser.go:19-30 | the empty setting gives no paths |
| Paths.GetPathsSpaces | parser_test.go:40-44 | white space around the paths of a setting is removed |
| Paths.GetPathsEmptySegment | parser_test.go:45-49 | an empty piece between two commas is dropped |
| Paths.GetPathsBlankPiece | parser.go:23-26 | a piece of white space only is kept, as the empty string |
| Paths.UniqueItems | parser.go:104-115 | the seen-set loop returns the input with every repeated occurrence removed |
| Paths.DedupElements | parser.go:104-115 | the result holds exactly the input's items, each once, and is no longer than the input |
| Paths.DedupOrder | parser.go:104-115 | items keep the order of their first occurrences in the input |
| Paths.ExpandTilde | parser.go:120-138 | "" and paths not starting with `~` are unchanged; `~x` with x not `/` or `\` fails as user-specific; `~` and `~/…` join the home directory with the rest, or fail with the home-directory lookup's error |
| Paths.TildeMessage | parser.go:129-136 | the user-specific refusal is the fixed text "cannot expand user-specific home dir"; a failed home-directory lookup gives "failed to fetch home directory: " followed by the lookup's own error text |
| Paths.TildeMessageInjective | parser.go:129-136 | the two error kinds, and two different lookup errors, never give the same message |
| Paths.ExpandTildeExamples | parser_test.go:102-131 | the unit test's cases, including the message of the user-specific error |
| Paths.IsURL | parser.go:185-187 | true exactly when the string has more than four characters and starts with "http" |
| Paths.IsURLExamples | parser.go:185-187 | isURL holds for the http and https URLs and fails for file paths, for "" and for "http" alone |
| Paths.GetFiles | parser.go:83-102 | getFiles collects the glob matches of every path that expands and globs, in order, skips the paths that fail, and removes repeated files |
| Paths.ResolvedFilesMembers | parser.go:83-102 | a file is resolved exactly when some configured path expands, globs and matches it; no file is resolved twice |
| Quarantine.IsQuarantined | parser.go:261-287 | true exactly when quarantine_tests is a list holding a mapping whose classname and name are strings and spell the test identifier with a dot; a missing or non-list root and any malformed entry do not match |
| Quarantine.IsExpired | parser.go:290-335 | true exactly when some entry naming the test has both dates as strings that parse, and now lies before the start's midnight or after the end's midnight; an entry with a missing or unparsable date is skipped |
| Quarantine.ExpiredIsQuarantined | parser.go:290-335 | only a quarantined test can have an expired quarantine |
| Quarantine.SingleEntryWindow | parser.go:306-327 | an entry with well-formed dates quarantines its test, and has expired exactly when now lies outside its window |
| Quarantine.WindowEdges | parser.go:324 | the start day is inside the window from its midnight on; on the end day the quarantine has expired once any time has passed since midnight; the calendar day after the end date, and any day before the start, are outside |
| Quarantine.LaterEntryExpires | parser.go:297-332 | an entry whose window holds does not hide a later expired entry for the same test |
| Quarantine.UnparsableDateNeverExpires | parser.go:312-316 | an entry whose start date does not parse never expires, yet still quarantines the test |
| Quarantine.NoListNoQuarantine | parser.go:264-268 | without a quarantine_tests list, nothing is quarantined or expired |
| GoJunit.CountTests | gojunit/types.go:99-113 | Tests is the number of direct tests, each status field counts the tests with exactly that status, and DurationMs sums their durations |
| GoJunit.SuiteRef.Aggregate | gojunit/types.go:97-127 | Totals becomes the direct counts plus the recursively aggregated totals of every nested suite; all other fields, including the nested suites and their stored totals, are unchanged |
| GoJunit.SuiteTotalsCountsTree | gojunit/types.go:97-127 | the recursive sum equals counting over every test of the suite tree at once |
| GoJunit.CountsPartition | gojunit/types.go:103-112 | the four status counts never exceed the number of tests, and equal it exactly when every status is a known one |
| GoJunit.TotalsBalanced | gojunit/types.go:41-46 | Passed + Skipped + Failed + Error never exceeds Tests, and equals it exactly when every test in the tree has one of the four known statuses |
| GoJunit.AggregateIdempotent | gojunit/types.go:99-126 | the stored totals are never read, so aggregating again gives the same Totals |
| Report.ParseTests | parser.go:33-80 | the counters are those of the direct tests of every suite of every file that can be ingested; with no files they are zero and there is no error; the error is present exactly when FailCount or ErrorCount is positive and carries those two counts |
| Report.ParseTestsWithQuarantine | parser.go:190-258 | the counters are the same as those of ParseTests; the error is present exactly when some failed test is not quarantined or has an expired quarantine, and it carries those two counts |
| Report.CountFile | parser.go:49-64 | one file's counters are the counts of the direct tests of all its suites |
| Report.CountSuite | parser.go:51-63 | every test raises TestCount and the counter of its status, if it has a known one |
| Report.CountFileWithQuarantine | parser.go:210-240 | one file's counters, plus the number of its failed tests that are not quarantined and the number that have expired quarantines |
| Report.CountSuiteWithQuarantine | parser.go:212-239 | per suite, the counters together with the classification of each failed test, in order |
| Report.Classify | parser.go:218-231 | an unquarantined failure raises the non-quarantined counter; a quarantined one with an expired quarantine raises the expired counter; any other leaves both unchanged |
| Report.FileStep | parser.go:43-48 | a file that cannot be ingested contributes nothing; an ingested file contributes its suites' tests |
| Report.StatsAppend | parser.go:68-73 | adding a file's counters to the running counters is the same as counting both lists of tests together |
| Report.CountedStatuses | parser.go:42-64 | the verdicts count exactly the statuses of the direct tests of the ingested files' suites, in order |
| Report.TopLevelIgnoresNested | parser.go:50-51 | only each suite's direct tests are counted: nested suites and all other suite fields do not matter |
| Report.StatsBalanced | parser.go:52-62 | a test with an unknown status raises only TestCount, so Pass + Fail + Skipped + Error never exceeds TestCount, and equals it exactly when every counted test has a known status |
| Report.FileFailedIdsCount | parser.go:214-232 | one identifier is classified per failed test: as many as FailCount |
| Report.FailuresPartition | parser.go:218-231 | every failed test falls into exactly one class: not quarantined, expired quarantine, or active quarantine |
| Report.ViolationFree | parser.go:254-257 | the quarantine verdict passes exactly when every failed test is quarantined and none of its quarantines has expired |
| Report.Message | parser.go:76-79 | the error text of both verdicts starts with "found " and the first count reads back right after it |
| Report.MessageDecodes | parser.go:254-257 | after the first count come the verdict's own words (" failed tests and " or " non-quarantined failed tests and "), and the second count reads back after them |
| Report.MessageInjective | parser.go:254-257 | the error text determines the error: which verdict failed and both of its counts |
| Report.QuarantineNeedsFailures | parser.go:235-238 | tests with status "error" never affect the quarantine verdict: a violation needs a failed test, so whatever the error count, a run with no failed test passes |

## Left out

- LoadYAML (parser.go:141-182) is not part of this model: fetching over
  HTTP, reading files and the YAML library are I/O. The decoded document
  is an input value.
- YAML mappings are keyed by strings here. A key of another type is never
  looked up, since every lookup is by a string. yaml.v2 decodes every
  nested mapping as `map[interface{}]interface{}`, the only entry shape
  the check at parser.go:271 accepts, so every `Map` entry passes that
  check.
- gojunit.IngestFile, the XML reader, is not part of this model. It
  becomes the `ingest` parameter, and a read or parse error is `None`.
- zglob.Glob, os.UserHomeDir and filepath.Join are fields of
  `Environment`. filepath.Join's path cleaning is inside that function.
- time.Now is the single instant `now` of a verdict. The source reads the
  clock once for each entry it checks, so the model assumes the clock does
  not move during a run. The local-time versus UTC difference between
  time.Now and time.Parse is not modelled: dates and now lie on one
  timeline.
- Dates.ParseDate: time.Parse's error values are collapsed to `None`, and
  years are 0000-9999.
- Logging through logrus (every log line of parser.go) is not modelled.
- Counters and durations are unbounded integers. Go's `int` and `int64`
  wrap-around is not modelled, since no realistic report reaches it.
- Strings are sequences of Unicode code points. isURL's `len` counts
  bytes, but for strings that start with "http" both lengths exceed four
  together. Invalid UTF-8 is not modelled.
- plugin.go's Exec, file writing and exit codes, and main.go's flag
  wiring, are outside the core. Only `TestStats` (plugin.go:17-23) is
  reused.
