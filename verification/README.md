# speedtracker: the data pipeline in Dafny

speedtracker records network speed tests as one JSON line per measurement. It appends each line to a month file named `YYYY-MM-DATA.json`. For a date window it renders latency, jitter, download and upload charts, with median, average and standard deviation. This project models the part between the files on disk and the chart data. That part is pure once reading the directory and the files is abstracted away.

- **File selection** (`SpeedTracker`). A date maps to its month file name (`get_data_file_name`). Mode 2 checks the two dates it is given and derives the first and last file names (`config_to_setup_for_mode_2`). `read_data_file_paths` keeps the directory entries whose names lie in that range and sorts the paths. `parse_output_file` keeps the lines that read, parse and are dated within the window. `Setup::read_data` concatenates the files' records in path order.
- **Record decoding** (`Json`, `JsonParser`, `Calendar`). A line is lexed to an abstract JSON value. The value is decoded into `ParsedEntry` by the rules of serde's derived `Deserialize`:
  - unknown members are skipped;
  - a known member given twice is an error;
  - a missing or `null` `Option` field is `None`, and any other missing field is an error;
  - `Performance` uses camelCase names;
  - a struct may also be given as an array of its fields.

  The timestamp uses the fixed-width `%Y-%m-%d %H:%M:%S` format (DATE_TIME_FORMAT). It is modelled with chrono's `NaiveDate`/`NaiveDateTime` as subset types and a formatter and parser that are proved inverse to each other.
- **Chart data** (`HtmlGenerator`, `Statistics`, `Sorting`).
  - For each metric, the point series has one point per record, with the configured default when a value is missing.
  - The datasets are the measured series and, when configured, a two-point "expected" line.
  - The statistics use only the values actually present. `median` sorts and takes the element at `len / 2`, the upper median. `average` is sum over count.
  - `standard_deviation` is the square root of the plain sum of squared deviations. It does NOT divide by the number of values, and the model follows the code here. For `[2, 4, 4, 4, 5, 5, 7, 9]` the code computes the square root of 32, where a population standard deviation would be 2 (`Statistics.StandardDeviationOfEight`, `Statistics.StandardDeviationOfDoubled`).

The model also keeps the code's panic conditions:
- `median` indexes out of bounds on an empty list, so `Median` and `CreateChart` require a non-empty value list.
- The jitter, download and upload point builders `unwrap()` the performance section. Their charts therefore require every record to have one.

Mode 2's panics (a date that does not parse, from after to) become `Err` values of `SetupError`.

speedtracker's effects are parameters:
- the directory listing is `Option<seq<Option<string>>>`: `None` when the directory cannot be read, and `None` entries for unreadable entries;
- a file is an `Option<seq<LineRead>>`, where a line reads or fails to read;
- the files are a `map` from path to lines;
- serde_json's text lexer is a function `lex: string -> Option<Json>`.

Numbers are `int` and `real`, and `f64::sqrt` is kept symbolic (`SquareRoot`). Rust's `str` order is `Text.StrLe`, lexicographic, with a prefix first.

Files: `results.dfy` (Option/Result), `text.dfy`, `sorting.dfy`, `calendar.dfy`, `json.dfy`, `json_parser.dfy`, `statistics.dfy`, `html_generator.dfy`, `speedtracker.dfy`.

## Model

| member | source | states |
|---|---|---|
| SpeedTracker.GetDataFileName | speedtracker/src/lib.rs:314-319 | the month file name of a date is the year and month exactly as DATE_FORMAT writes them (the first seven characters), followed by `-DATA.json` |
| SpeedTracker.DataFileNameSameMonth | speedtracker/src/lib.rs:314-316 | two dates get the same file name if and only if they lie in the same month of the same year |
| SpeedTracker.DataFileNameOrder | speedtracker/src/lib.rs:314-319 | file names compare as strings exactly as (year, month) pairs compare in time, in both directions |
| SpeedTracker.DataFileNameMonotone | speedtracker/src/lib.rs:316-319 | the promise of the comment: a date not after another never gets a file name that sorts after the other's |
| SpeedTracker.JoinPathOrder | speedtracker/src/lib.rs:453-460 | joining names to the same data directory keeps their string order, in both directions |
| SpeedTracker.SelectedPathsMembers | speedtracker/src/lib.rs:436-460 | a path is selected if and only if it is the data directory joined with the name of a readable entry with first <= name <= last, both ends included |
| SpeedTracker.ReadDataFilePaths | speedtracker/src/lib.rs:431-463 | `None` exactly when the directory cannot be read; otherwise the selected paths, sorted ascending as strings, as a permutation of the selection |
| SpeedTracker.DataFilePathsMembers | speedtracker/src/lib.rs:450-462 | the returned list holds a path if and only if it names an entry inside the inclusive name range; nothing outside the range is returned |
| SpeedTracker.DataFilePathsInNameOrder | speedtracker/src/lib.rs:461 | of two returned paths, the earlier has the name that is not greater, so month files come in month order |
| SpeedTracker.LineEntries | speedtracker/src/lib.rs:474-497 | a line contributes exactly one record when it reads, parses and its date lies in [from, to], both ends included; that record is what the line parses to; otherwise it contributes nothing |
| SpeedTracker.KeptEntries | speedtracker/src/lib.rs:472-499 | the kept records are never more than the lines, and every kept record's date lies in the window |
| SpeedTracker.KeptEntriesFromLines | speedtracker/src/lib.rs:476-482 | every kept record is what some line of the file parses to |
| SpeedTracker.KeptEntriesComplete | speedtracker/src/lib.rs:479-482 | every line that parses to a record dated in the window contributes that record |
| SpeedTracker.KeptEntriesAppend | speedtracker/src/lib.rs:472-499 | the records of concatenated lines are the concatenated records: lines contribute independently and in line order |
| SpeedTracker.BadLineSkipped | speedtracker/src/lib.rs:487-496 | a line that fails to read or to parse can be removed without changing the result: it is dropped without aborting |
| SpeedTracker.ParseOutputFile | speedtracker/src/lib.rs:465-501 | `None` exactly when the file cannot be opened; otherwise the kept records of its lines, all dated in the window |
| SpeedTracker.LoadFiles | speedtracker/src/lib.rs:120-127 | every record loaded from the chosen files is dated in the window |
| SpeedTracker.LoadFilesAppend | speedtracker/src/lib.rs:121-127 | the records of a list of files are the concatenation of each file's records, in list order |
| SpeedTracker.LoadOneFile | speedtracker/src/lib.rs:123-126 | a file that cannot be opened contributes nothing; an open file contributes its kept records |
| SpeedTracker.ReadData | speedtracker/src/lib.rs:114-131 | empty when the data directory cannot be read; otherwise the records of the selected paths, file after file in sorted path order; every record is dated in the window |
| SpeedTracker.ConfigToSetupForMode2 | speedtracker/src/lib.rs:271-312 | an unparsable from or to date is an error; it succeeds if and only if both dates parse and from <= to; on success the dates are the given texts read back, `new_data_file` is `None`, the filter names are the two dates' month file names and are ordered, and the directories are copied |
| SpeedTracker.Mode2SelectsRecordMonths | speedtracker/src/lib.rs:288-296 | every date in the accepted window has its month file name between the first and last filter names, so no file with records of the window is excluded |
| Calendar.DateRoundTrip | speedtracker/src/lib.rs:279-286 | parsing a text with DATE_FORMAT gives date d if and only if d formatted with DATE_FORMAT is that text |
| Calendar.FormatThenParseDateTime | speedtracker/src/html_generator.rs:365 | a timestamp formatted with DATE_TIME_FORMAT parses back to the same timestamp |
| Calendar.DateTimeRoundTrip | speedtracker/src/json_parser.rs:84 | parsing a text with DATE_TIME_FORMAT gives timestamp t if and only if t formatted with the same format is that text |
| JsonParser.DecodeString | speedtracker/src/json_parser.rs:35-38 | a `String` field accepts exactly JSON strings, and keeps the text |
| JsonParser.DecodeU32 | speedtracker/src/json_parser.rs:52-53 | a `u32` field accepts exactly integer literals from 0 to 2^32 - 1 |
| JsonParser.DecodeF64 | speedtracker/src/json_parser.rs:56-57 | an `f64` field accepts any JSON number, integer literals included, with its value |
| JsonParser.DecodeOption | speedtracker/src/json_parser.rs:53-57 | an `Option` field is `None` exactly for `null`; otherwise it fails exactly when the inner decoder fails |
| JsonParser.DecodeTimestamp | speedtracker/src/json_parser.rs:79-85 | a timestamp is a string that parses with DATE_TIME_FORMAT; a string that does not parse is an error |
| JsonParser.TimestampMember | speedtracker/src/json_parser.rs:62-63 | the timestamp member decodes to t if and only if it is the string of t in DATE_TIME_FORMAT |
| JsonParser.ScanMembersPasses | speedtracker/src/json_parser.rs:32-68 | the pass over an object's members succeeds if and only if no field name occurs twice and every field's value decodes |
| JsonParser.ScanMembersAppendUnknown | speedtracker/src/json_parser.rs:32-68 | a member whose name is not a field does not change the pass |
| JsonParser.RequiredMember | speedtracker/src/json_parser.rs:35-38 | a missing required field is a MissingField error; a present one gives exactly what its value decodes to, error included |
| JsonParser.OptionalMember | speedtracker/src/json_parser.rs:34 | a missing or `null` optional field is `None`; a present one carries its decoded value; it fails only on a value that does not decode |
| JsonParser.ClientFromMembersExact | speedtracker/src/json_parser.rs:32-39 | the client fields give client c if and only if `wlan` is absent, `null` or c's string, and `ip`, `lat`, `lon`, `isp` are c's strings |
| JsonParser.ClientObject | speedtracker/src/json_parser.rs:32-39 | a JSON object decodes to client c if and only if it names no field twice and its members spell out c: `wlan` optional, the other four required strings |
| JsonParser.ServerFromMembersExact | speedtracker/src/json_parser.rs:41-47 | the server fields give server s if and only if all four members are s's strings |
| JsonParser.ServerObject | speedtracker/src/json_parser.rs:41-47 | a JSON object decodes to server s if and only if it names no field twice and all four required string members are s's |
| JsonParser.PerformanceFromMembersExact | speedtracker/src/json_parser.rs:49-58 | the performance fields give p if and only if `latency` is p's u32 and each optional member carries p's value or is absent or `null` |
| JsonParser.PerformanceObject | speedtracker/src/json_parser.rs:49-58 | a JSON object decodes to performance p if and only if it names no field twice and its camelCase members spell out p, with `latency` required |
| JsonParser.MissingLatencyRejected | speedtracker/src/json_parser.rs:52 | a performance object without `latency` never decodes |
| JsonParser.PerformanceFromMembersAppendUnknown | speedtracker/src/json_parser.rs:49-58 | a member that is not a performance field name does not change the decoded fields |
| JsonParser.SnakeCaseNameIgnored | speedtracker/src/json_parser.rs:50 | `download_config` and `upload_config` are unknown names: the wire names are camelCase |
| JsonParser.ParsedEntryFromMembersExact | speedtracker/src/json_parser.rs:60-68 | the entry fields give e if and only if the timestamp is e's in DATE_TIME_FORMAT and each of client, server and performance on its own is absent, `null` or e's section |
| JsonParser.EntryObject | speedtracker/src/json_parser.rs:60-68 | a JSON object decodes to entry e if and only if it names no field twice and its members spell out e: the sections are independently optional |
| JsonParser.BadTimestampRejected | speedtracker/src/json_parser.rs:79-85 | a timestamp string not in DATE_TIME_FORMAT makes the whole entry an error |
| JsonParser.MissingLatencyRejectsEntry | speedtracker/src/json_parser.rs:49-68 | a performance section without `latency` makes the whole entry an error, although the section itself is optional |
| JsonParser.Parse | speedtracker/src/json_parser.rs:72-76 | a line that does not lex is a syntax error; a line that lexes to a scalar or `null` is an InvalidType error; only objects and arrays give records; as a total function it never panics |
| JsonParser.ParseObject | speedtracker/src/json_parser.rs:60-76 | a line holding one JSON object parses to entry e if and only if the object names no field twice and spells out e |
| JsonParser.ParseArrayLength | speedtracker/src/json_parser.rs:60-76 | a line holding an array whose length is not the four fields of `ParsedEntry` is an InvalidLength error |
| JsonParser.ParseArray | speedtracker/src/json_parser.rs:60-76 | a line holding a four-element array parses to entry e if and only if the elements are, in field order, e's timestamp in DATE_TIME_FORMAT and its three sections, each `null` for `None` or a value that decodes |
| HtmlGenerator.Series | speedtracker/src/html_generator.rs:362-373 | one point per record, in record order, with x the record's timestamp in DATE_TIME_FORMAT and y the point value of that record |
| HtmlGenerator.SeriesTimestamps | speedtracker/src/html_generator.rs:365 | every point's x reads back with DATE_TIME_FORMAT as its record's timestamp |
| HtmlGenerator.Values | speedtracker/src/html_generator.rs:377-384 | the value list is never longer than the records, and it is non-empty exactly when some record has the metric |
| HtmlGenerator.ValuesAppend | speedtracker/src/html_generator.rs:406-414 | records contribute values independently and in record order |
| HtmlGenerator.ValuesArePresent | speedtracker/src/html_generator.rs:436-443 | every value in the list is the present value of some record: no default enters the statistics |
| HtmlGenerator.ValuesWhenAllPresent | speedtracker/src/html_generator.rs:465-472 | when every record has the metric, the list is exactly one value per record, in order |
| HtmlGenerator.AbsentRecordIgnored | speedtracker/src/html_generator.rs:406-414 | removing a record without the metric leaves the value list unchanged |
| HtmlGenerator.CreateDataset | speedtracker/src/html_generator.rs:490-497 | the measured dataset keeps the points unchanged and copies label, fill and border colour |
| HtmlGenerator.CreateDatasetExpected | speedtracker/src/html_generator.rs:500-522 | exactly two points, both at the configured value, at the first and last point's x, or both at `""` when there are no points |
| HtmlGenerator.CreateDatasets | speedtracker/src/html_generator.rs:479-487 | the measured dataset first, then the expected one if and only if it is configured: one or two datasets |
| HtmlGenerator.CreateChart | speedtracker/src/html_generator.rs:525-540 | the median is the upper median of the values, the average and the radicand of the standard deviation are those of the values as given; the in-place sort before them changes neither |
| HtmlGenerator.LatencyChart | speedtracker/src/html_generator.rs:361-387 | one latency point per record, the default only where the performance section is missing; statistics over the latencies of the records that have one |
| HtmlGenerator.JitterChart | speedtracker/src/html_generator.rs:390-416 | with every record having performance: one jitter point per record, defaulted where jitter is missing; statistics over the present jitters only |
| HtmlGenerator.DownloadChart | speedtracker/src/html_generator.rs:420-445 | with every record having performance: one download point per record, defaulted where missing; statistics over the present downloads only |
| HtmlGenerator.UploadChart | speedtracker/src/html_generator.rs:449-474 | with every record having performance: one upload point per record, defaulted where missing; statistics over the present uploads only |
| HtmlGenerator.DownloadStatisticsMatchPlot | speedtracker/src/html_generator.rs:420-443 | when every record has a download value, the statistics run over exactly the plotted y values |
| HtmlGenerator.ExpectedLineSpansRecords | speedtracker/src/html_generator.rs:479-522 | with records present, the expected line runs from the first record's timestamp to the last record's at the configured value |
| Statistics.Median | speedtracker/src/html_generator.rs:542-546 | leaves the list as a sorted permutation of the input and returns its element at `len / 2`, which is the upper median |
| Statistics.UpperMedianUnique | speedtracker/src/html_generator.rs:542-546 | the upper-median property (fewer than len/2 values below, more at or below) holds of exactly the returned value |
| Statistics.AnySortGivesMedian | speedtracker/src/html_generator.rs:542-546 | any sorted permutation of the values, which is what Rust's `sort_by` leaves, is the one `Median` builds, and has the same middle element |
| Statistics.MedianOfFourIsUpper | speedtracker/src/html_generator.rs:544-545 | `[1, 2, 3, 4]` has median 3, not 2.5 |
| Statistics.PermutationKeepsTotals | speedtracker/src/html_generator.rs:530-531 | reordering the values changes neither their sum nor the counts below or at a value |
| Statistics.PermutationKeepsDeviations | speedtracker/src/html_generator.rs:530-532 | reordering the values does not change the sum of squared deviations |
| Statistics.Average | speedtracker/src/html_generator.rs:548-551 | the average times the count is the sum |
| Statistics.AverageBounds | speedtracker/src/html_generator.rs:548-551 | the average lies within any bounds that all values lie within |
| Statistics.StandardDeviation | speedtracker/src/html_generator.rs:553-562 | the radicand is non-negative, and zero if and only if every value equals the average |
| Statistics.StandardDeviationOfDoubled | speedtracker/src/html_generator.rs:553-562 | listing every value twice keeps the average but doubles the radicand: nothing divides by the count |
| Statistics.StandardDeviationOfEight | speedtracker/src/html_generator.rs:553-562 | `[2, 4, 4, 4, 5, 5, 7, 9]` has average 5 and radicand 32, not the population variance 4 |

## Left out

- File system and process I/O. Reading the directory, opening files and reading lines are inputs: the listing, the `files` map and `LineRead`. Logging of skipped lines is not modelled. The program's later steps are not modelled: running the speed test, appending to the month file, the permission checks, and writing the HTML through the template.
- `config_to_setup_for_mode_1` reads the wall clock and checks permissions. `read_config`, the logger and the command line are plumbing around foreign libraries.
- HTML table building and the serde serialisation of datasets are library formatting with no stated contract.
- Floating point. Values are `real`: rounding, NaN (on which `partial_cmp(...).unwrap()` would panic) and the exact `f64::sqrt` are not modelled. `SquareRoot` keeps the radicand.
- No unit divisor is applied to the statistics. `MEGA_BIT_FACTOR` is declared but the chart code never uses it.
- The files are a `map` from path to lines, so opening a path twice yields the same lines. Reading a file's lines is modelled as a finite sequence. In the source, `BufReader::lines()` does not stop after a read error: a path that opens but fails on every read (on Linux, a directory named like a month file) makes `parse_output_file` log and skip errors forever. The model, being total, cannot express that non-termination.
- SpeedTracker.ReadDataFilePaths: a name that is not valid UTF-8 makes the source panic in `to_str().unwrap()`. The model only has `string` names. An entry that fails to read or to strip the directory prefix is a `None` entry.
- SpeedTracker.ReadDataFilePaths: `Path::join` is modelled for a plain file name as adding one `/` unless the directory is empty or ends in one. Names holding separators or absolute paths are not modelled.
- SpeedTracker.ConfigToSetupForMode2: the panics become `Err` values, and `working_dir.to_str().unwrap()` is taken as a string input.
- Calendar.DateRoundTrip: chrono's parser also accepts some non-canonical spellings (fields with fewer digits, a sign, years beyond four digits). The model parses the fixed-width form only, with years 0 to 9999, which is what the formatter writes. The same holds for DateTimeRoundTrip and for the dates mode 2 accepts.
- JsonParser.Parse: the text lexer of serde_json is the parameter `lex`. Only the decoding of the lexed value is modelled, for every kind of value: objects, arrays, scalars and `null`.
- JsonParser.ClientObject: for a struct given as an array, the model checks the length before the elements. serde decodes elements first and reports a wrong length after. The set of accepted arrays is the same, but the error reported for a bad array can differ.
- JsonParser.Parse: error messages are not modelled, only the kinds of error.
- Statistics.Average: the source divides 0.0 by 0.0 (NaN) on an empty list. The model requires a non-empty list, which `median` already needs before `average` runs.
- HtmlGenerator.LatencyChart: the latency value converted with `as f64` is the exact real of the `u32`. The same holds for jitter.
