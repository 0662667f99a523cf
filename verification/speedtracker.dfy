/** The data-selection pipeline of lib.rs: monthly data file names, choosing the data
    files of a date range from a directory listing, reading the records of a file and
    keeping those of the date range, and the setup of mode 2 (visualise a given range).
    The file system is replaced by its results: a directory listing is a sequence of
    entry names (or `None` when the directory cannot be read, an entry `None` when the
    entry cannot be read), and the files are a map from path to lines, where a line
    reads either as text or as an error and a path missing from the map cannot be
    opened. */
module SpeedTracker {
  import opened Results
  import opened Text
  import opened Sorting
  import opened Calendar
  import opened Json
  import opened JsonParser
  import opened HtmlGenerator

  /** The configuration file's contents. */
  datatype Config = Config(
    dataDir: string,
    outputFile: string,
    outputXdays: U32,
    logFile: string,
    logFileMaxLengthInKb: nat,
    latencyChart: ChartConfig<U32>,
    jitterChart: ChartConfig<U32>,
    downloadChart: ChartConfig<real>,
    uploadChart: ChartConfig<real>)

  /** What one run works with. `newDataFile` is only set in mode 1, which also
      measures. */
  datatype Setup = Setup(
    dataDir: string,
    newDataFile: Option<string>,
    firstFilterFileName: string,
    lastFilterFileName: string,
    fromDate: NaiveDate,
    toDate: NaiveDate,
    outputFile: string,
    workingDir: string,
    latencyChart: ChartConfig<U32>,
    jitterChart: ChartConfig<U32>,
    downloadChart: ChartConfig<real>,
    uploadChart: ChartConfig<real>)

  /* Data file names */

  /** `get_data_file_name`: DATE_FILE_NAME_FORMAT, `%Y-%m-DATA.json`. The name is the
      year and month as DATE_FORMAT writes them, followed by `-DATA.json`. */
  function GetDataFileName(date: NaiveDate): (name: string)
    ensures name == FormatDate(date)[..7] + "-DATA.json"
  {
    Pow10Values();
    Pad(date.year, 4) + ("-" + Pad(date.month, 2) + "-DATA.json")
  }

  /** All records of one month share a file, and no two months do. */
  lemma DataFileNameSameMonth(a: NaiveDate, b: NaiveDate)
    ensures GetDataFileName(a) == GetDataFileName(b) <==> a.year == b.year && a.month == b.month
  {
    DataFileNameOrder(a, b);
    DataFileNameOrder(b, a);
    StrLeReflexive(GetDataFileName(a));
    if GetDataFileName(a) != GetDataFileName(b) && StrLe(GetDataFileName(a), GetDataFileName(b))
      && StrLe(GetDataFileName(b), GetDataFileName(a))
    {
      StrLeAntisymmetric(GetDataFileName(a), GetDataFileName(b));
    }
  }

  /** The part of a data file name after the year: the month and the fixed suffix. */
  lemma MonthPartOrder(a: NaiveDate, b: NaiveDate)
    ensures StrLe("-" + Pad(a.month, 2) + "-DATA.json", "-" + Pad(b.month, 2) + "-DATA.json") <==> a.month <= b.month
  {
    Pow10Values();
    var ma, mb, suffix := Pad(a.month, 2), Pad(b.month, 2), "-DATA.json";
    assert "-" + ma + suffix == "-" + (ma + suffix);
    assert "-" + mb + suffix == "-" + (mb + suffix);
    StrLeCommonPrefix("-", ma + suffix, mb + suffix);
    StrLeAppend(ma, suffix, mb, suffix);
    PadInjective(a.month, b.month, 2);
    PadOrder(a.month, b.month, 2);
    StrLeReflexive(suffix);
  }

  /** The names sort as strings exactly as the months sort in time. */
  lemma DataFileNameOrder(a: NaiveDate, b: NaiveDate)
    ensures StrLe(GetDataFileName(a), GetDataFileName(b)) <==>
      a.year < b.year || (a.year == b.year && a.month <= b.month)
  {
    Pow10Values();
    var ya, yb := Pad(a.year, 4), Pad(b.year, 4);
    var restA, restB := "-" + Pad(a.month, 2) + "-DATA.json", "-" + Pad(b.month, 2) + "-DATA.json";
    assert GetDataFileName(a) == ya + restA;
    assert GetDataFileName(b) == yb + restB;
    StrLeAppend(ya, restA, yb, restB);
    PadInjective(a.year, b.year, 4);
    PadOrder(a.year, b.year, 4);
    MonthPartOrder(a, b);
  }

  /** As the comment in lib.rs promises, the names follow the timeline: a later date
      never has an earlier file. */
  lemma DataFileNameMonotone(a: NaiveDate, b: NaiveDate)
    requires DateLe(a, b)
    ensures StrLe(GetDataFileName(a), GetDataFileName(b))
  {
    DataFileNameOrder(a, b);
  }

  /* Choosing the data files */

  /** `Path::join` of a plain file name: a separator is added unless the directory is
      empty or already ends with one. */
  function JoinPath(dir: string, name: string): string {
    DirPrefix(dir) + name
  }

  function DirPrefix(dir: string): string {
    if |dir| == 0 || dir[|dir| - 1] == '/' then dir else dir + "/"
  }

  /** Paths in one directory sort as their names do. */
  lemma JoinPathOrder(dir: string, a: string, b: string)
    ensures StrLe(JoinPath(dir, a), JoinPath(dir, b)) <==> StrLe(a, b)
  {
    StrLeCommonPrefix(DirPrefix(dir), a, b);
  }

  predicate InRange(name: string, first: string, last: string) {
    StrLe(first, name) && StrLe(name, last)
  }

  /** The paths of the readable entries whose names lie between `first` and `last`,
      both included, in listing order. */
  function SelectedPaths(dataDir: string, entries: seq<Option<string>>, first: string, last: string): (r: seq<string>)
    ensures |r| <= |entries|
  {
    if |entries| == 0 then []
    else
      var rest := SelectedPaths(dataDir, entries[1..], first, last);
      match entries[0]
      case Some(name) => if InRange(name, first, last) then [JoinPath(dataDir, name)] + rest else rest
      case None => rest
  }

  lemma {:induction false} SelectedPathsMembers(dataDir: string, entries: seq<Option<string>>, first: string, last: string, p: string)
    ensures p in SelectedPaths(dataDir, entries, first, last) <==>
      exists i :: 0 <= i < |entries| && entries[i].Some? && InRange(entries[i].value, first, last)
               && p == JoinPath(dataDir, entries[i].value)
    decreases |entries|
  {
    if |entries| > 0 {
      var tail := entries[1..];
      SelectedPathsMembers(dataDir, tail, first, last, p);
      assert forall i :: 0 <= i < |tail| ==> tail[i] == entries[i + 1];
      if exists i :: 0 <= i < |entries| && entries[i].Some? && InRange(entries[i].value, first, last)
                      && p == JoinPath(dataDir, entries[i].value) {
        var i :| 0 <= i < |entries| && entries[i].Some? && InRange(entries[i].value, first, last)
                 && p == JoinPath(dataDir, entries[i].value);
        if i > 0 {
          assert tail[i - 1] == entries[i];
        }
      }
    }
  }

  lemma StrLeIsTotalOrder()
    ensures TotalPreorder(StrLe) && Antisymmetric(StrLe)
  {
    forall a, b
      ensures StrLe(a, b) || StrLe(b, a)
    {
      StrLeTotal(a, b);
    }
    forall a, b, c | StrLe(a, b) && StrLe(b, c)
      ensures StrLe(a, c)
    {
      StrLeTransitive(a, b, c);
    }
    forall a, b | StrLe(a, b) && StrLe(b, a)
      ensures a == b
    {
      StrLeAntisymmetric(a, b);
    }
  }

  /** `read_data_file_paths`: `None` when the directory cannot be read; otherwise the
      selected paths, sorted as strings. */
  function ReadDataFilePaths(dataDir: string, listing: Option<seq<Option<string>>>, first: string, last: string)
    : (r: Option<seq<string>>)
    ensures r.None? <==> listing.None?
    ensures r.Some? ==> Sorted(r.value, StrLe)
    ensures r.Some? ==> multiset(r.value) == multiset(SelectedPaths(dataDir, listing.value, first, last))
  {
    StrLeIsTotalOrder();
    match listing
    case None => None
    case Some(entries) => Some(InsertionSort(SelectedPaths(dataDir, entries, first, last), StrLe))
  }

  /** A path is returned iff it names a readable entry whose name lies in the range,
      both ends included. */
  lemma DataFilePathsMembers(dataDir: string, entries: seq<Option<string>>, first: string, last: string, p: string)
    ensures p in ReadDataFilePaths(dataDir, Some(entries), first, last).value <==>
      exists i :: 0 <= i < |entries| && entries[i].Some? && InRange(entries[i].value, first, last)
               && p == JoinPath(dataDir, entries[i].value)
  {
    var r := ReadDataFilePaths(dataDir, Some(entries), first, last).value;
    assert p in r <==> p in multiset(r);
    SelectedPathsMembers(dataDir, entries, first, last, p);
  }

  /** The returned files come in the order of their names; with names from
      `GetDataFileName`, that is the order of their months. */
  lemma DataFilePathsInNameOrder(dataDir: string, entries: seq<Option<string>>, first: string, last: string,
                                 i: nat, j: nat, a: string, b: string)
    requires i <= j < |ReadDataFilePaths(dataDir, Some(entries), first, last).value|
    requires ReadDataFilePaths(dataDir, Some(entries), first, last).value[i] == JoinPath(dataDir, a)
    requires ReadDataFilePaths(dataDir, Some(entries), first, last).value[j] == JoinPath(dataDir, b)
    ensures StrLe(a, b)
  {
    var r := ReadDataFilePaths(dataDir, Some(entries), first, last).value;
    if i == j {
      StrLeReflexive(JoinPath(dataDir, a));
    }
    assert StrLe(r[i], r[j]);
    JoinPathOrder(dataDir, a, b);
  }

  /* Reading the records of a data file */

  /** A line as `BufReader::lines` yields it. */
  datatype LineRead = LineError | Line(text: string)

  predicate InDateRange(e: ParsedEntry, from: NaiveDate, to: NaiveDate) {
    DateLe(from, e.timestamp.date) && DateLe(e.timestamp.date, to)
  }

  /** What one line contributes: its record, when the line reads, parses (`parse` is
      the record parser, `JsonParser::parse`) and is dated within the range; nothing
      otherwise. */
  function LineEntries(line: LineRead, from: NaiveDate, to: NaiveDate,
                       parse: string -> Result<ParsedEntry, Error>)
    : (r: seq<ParsedEntry>)
    ensures |r| <= 1
    ensures |r| == 1 <==> line.Line? && parse(line.text).Ok? && InDateRange(parse(line.text).value, from, to)
    ensures |r| == 1 ==> r[0] == parse(line.text).value
  {
    match line
    case LineError => []
    case Line(text) =>
      match parse(text)
      case Err(_) => []
      case Ok(e) => if InDateRange(e, from, to) then [e] else []
  }

  /** The records of the lines that read and parse, and whose date lies in the range,
      in line order. */
  function KeptEntries(lines: seq<LineRead>, from: NaiveDate, to: NaiveDate,
                       parse: string -> Result<ParsedEntry, Error>)
    : (r: seq<ParsedEntry>)
    ensures |r| <= |lines|
    ensures forall k :: 0 <= k < |r| ==> InDateRange(r[k], from, to)
  {
    if |lines| == 0 then []
    else LineEntries(lines[0], from, to, parse) + KeptEntries(lines[1..], from, to, parse)
  }

  /** Every kept record is what one of the lines parses to. */
  lemma {:induction false} KeptEntriesFromLines(lines: seq<LineRead>, from: NaiveDate, to: NaiveDate,
                                               parse: string -> Result<ParsedEntry, Error>, k: nat)
    requires k < |KeptEntries(lines, from, to, parse)|
    ensures exists i :: 0 <= i < |lines| && lines[i].Line?
              && parse(lines[i].text) == Ok(KeptEntries(lines, from, to, parse)[k])
    decreases |lines|
  {
    var tail := lines[1..];
    var head := LineEntries(lines[0], from, to, parse);
    var r := KeptEntries(lines, from, to, parse);
    assert r == head + KeptEntries(tail, from, to, parse);
    if k < |head| {
      assert lines[0].Line? && parse(lines[0].text) == Ok(r[0]);
    } else {
      var k' := k - |head|;
      assert r[k] == KeptEntries(tail, from, to, parse)[k'];
      KeptEntriesFromLines(tail, from, to, parse, k');
      var i :| 0 <= i < |tail| && tail[i].Line? && parse(tail[i].text) == Ok(KeptEntries(tail, from, to, parse)[k']);
      assert lines[i + 1] == tail[i];
    }
  }

  /** Every line that parses to a record of the range contributes it. */
  lemma {:induction false} KeptEntriesComplete(lines: seq<LineRead>, from: NaiveDate, to: NaiveDate,
                                              parse: string -> Result<ParsedEntry, Error>, i: nat)
    requires i < |lines| && lines[i].Line? && parse(lines[i].text).Ok?
    requires InDateRange(parse(lines[i].text).value, from, to)
    ensures parse(lines[i].text).value in KeptEntries(lines, from, to, parse)
    decreases i
  {
    var tail := lines[1..];
    assert KeptEntries(lines, from, to, parse) == LineEntries(lines[0], from, to, parse) + KeptEntries(tail, from, to, parse);
    if i > 0 {
      assert tail[i - 1] == lines[i];
      KeptEntriesComplete(tail, from, to, parse, i - 1);
    } else {
      assert LineEntries(lines[0], from, to, parse) == [parse(lines[0].text).value];
    }
  }

  /** Lines contribute independently and in place: the records of a concatenation of
      lines are the concatenation of their records, so line order is kept. */
  lemma {:induction false} KeptEntriesAppend(a: seq<LineRead>, b: seq<LineRead>, from: NaiveDate, to: NaiveDate,
                                            parse: string -> Result<ParsedEntry, Error>)
    ensures KeptEntries(a + b, from, to, parse) == KeptEntries(a, from, to, parse) + KeptEntries(b, from, to, parse)
    decreases |a|
  {
    if |a| == 0 {
      assert a + b == b;
    } else {
      assert (a + b)[0] == a[0];
      assert (a + b)[1..] == a[1..] + b;
      KeptEntriesAppend(a[1..], b, from, to, parse);
      var head := LineEntries(a[0], from, to, parse);
      assert KeptEntries(a + b, from, to, parse) == head + KeptEntries(a[1..] + b, from, to, parse);
      assert KeptEntries(a, from, to, parse) == head + KeptEntries(a[1..], from, to, parse);
    }
  }

  /** A line that cannot be read or parsed is dropped without affecting the others. */
  lemma BadLineSkipped(lines: seq<LineRead>, from: NaiveDate, to: NaiveDate,
                       parse: string -> Result<ParsedEntry, Error>, i: nat)
    requires i < |lines|
    requires lines[i].LineError? || parse(lines[i].text).Err?
    ensures KeptEntries(lines, from, to, parse) == KeptEntries(lines[..i] + lines[i + 1..], from, to, parse)
  {
    var before, after := lines[..i], lines[i + 1..];
    var rest := [lines[i]] + after;
    assert lines == before + rest;
    assert rest[0] == lines[i] && rest[1..] == after;
    assert LineEntries(lines[i], from, to, parse) == [];
    assert KeptEntries(rest, from, to, parse) == KeptEntries(after, from, to, parse);
    KeptEntriesAppend(before, rest, from, to, parse);
    KeptEntriesAppend(before, after, from, to, parse);
  }

  /** `JsonParser::parse` with the lexer fixed: the parser of one line. */
  function LineParser(lex: string -> Option<Json>): string -> Result<ParsedEntry, Error> {
    line => Parse(line, lex)
  }

  /** `parse_output_file`: `None` when the file cannot be opened, otherwise the kept
      records. Nothing in a file makes it fail. */
  function ParseOutputFile(file: Option<seq<LineRead>>, from: NaiveDate, to: NaiveDate, lex: string -> Option<Json>)
    : (r: Option<seq<ParsedEntry>>)
    ensures r.None? <==> file.None?
    ensures r.Some? ==> r.value == KeptEntries(file.value, from, to, LineParser(lex))
    ensures r.Some? ==> forall k :: 0 <= k < |r.value| ==> InDateRange(r.value[k], from, to)
  {
    match file
    case None => None
    case Some(lines) => Some(KeptEntries(lines, from, to, LineParser(lex)))
  }

  /* Loading all records of a range */

  function Open(files: map<string, seq<LineRead>>, path: string): Option<seq<LineRead>> {
    if path in files then Some(files[path]) else None
  }

  /** The kept records of the files, file after file; a file that cannot be opened
      contributes nothing. */
  function LoadFiles(paths: seq<string>, files: map<string, seq<LineRead>>, from: NaiveDate, to: NaiveDate,
                     lex: string -> Option<Json>): (r: seq<ParsedEntry>)
    ensures forall k :: 0 <= k < |r| ==> InDateRange(r[k], from, to)
  {
    if |paths| == 0 then []
    else ParseOutputFile(Open(files, paths[0]), from, to, lex).GetOr([]) + LoadFiles(paths[1..], files, from, to, lex)
  }

  /** Files contribute in the order they are given, each as a block. */
  lemma {:induction false} LoadFilesAppend(a: seq<string>, b: seq<string>, files: map<string, seq<LineRead>>,
                                          from: NaiveDate, to: NaiveDate, lex: string -> Option<Json>)
    ensures LoadFiles(a + b, files, from, to, lex) == LoadFiles(a, files, from, to, lex) + LoadFiles(b, files, from, to, lex)
    decreases |a|
  {
    if |a| == 0 {
      assert a + b == b;
    } else {
      assert (a + b)[1..] == a[1..] + b;
      LoadFilesAppend(a[1..], b, files, from, to, lex);
    }
  }

  /** The contribution of a single file: its kept records, or none if it cannot be
      opened. */
  lemma LoadOneFile(path: string, files: map<string, seq<LineRead>>, from: NaiveDate, to: NaiveDate,
                    lex: string -> Option<Json>)
    ensures path !in files ==> LoadFiles([path], files, from, to, lex) == []
    ensures path in files ==> LoadFiles([path], files, from, to, lex) == KeptEntries(files[path], from, to, LineParser(lex))
  {
    assert [path][1..] == [];
  }

  /** `Setup::read_data`: nothing when the data directory cannot be read, otherwise
      the records of the selected files in path order. */
  function ReadData(setup: Setup, listing: Option<seq<Option<string>>>, files: map<string, seq<LineRead>>,
                    lex: string -> Option<Json>): (r: seq<ParsedEntry>)
    ensures listing.None? ==> r == []
    ensures listing.Some? ==> r == LoadFiles(
      ReadDataFilePaths(setup.dataDir, listing, setup.firstFilterFileName, setup.lastFilterFileName).value,
      files, setup.fromDate, setup.toDate, lex)
    ensures forall k :: 0 <= k < |r| ==> InDateRange(r[k], setup.fromDate, setup.toDate)
  {
    match ReadDataFilePaths(setup.dataDir, listing, setup.firstFilterFileName, setup.lastFilterFileName)
    case None => []
    case Some(paths) => LoadFiles(paths, files, setup.fromDate, setup.toDate, lex)
  }

  /* Mode 2 */

  /** The ways mode 2 refuses its arguments; the source panics with a message. */
  datatype SetupError =
    | InvalidFromDate(text: string)
    | InvalidToDate(text: string)
    | FromAfterTo(from: NaiveDate, to: NaiveDate)

  /** The checks and derivations of `config_to_setup_for_mode_2`: both dates must be in
      DATE_FORMAT and the first not after the second; the data files are chosen by the
      names of the two dates' months, and nothing is measured. */
  function ConfigToSetupForMode2(workingDir: string, config: Config, fromText: string, toText: string,
                                 outputFile: string): (r: Result<Setup, SetupError>)
    ensures ParseDate(fromText).None? ==> r == Err(InvalidFromDate(fromText))
    ensures ParseDate(fromText).Some? && ParseDate(toText).None? ==> r == Err(InvalidToDate(toText))
    ensures r.Ok? <==> ParseDate(fromText).Some? && ParseDate(toText).Some?
                       && DateLe(ParseDate(fromText).value, ParseDate(toText).value)
    ensures r.Ok? ==> FormatDate(r.value.fromDate) == fromText && FormatDate(r.value.toDate) == toText
    ensures r.Ok? ==> r.value.newDataFile.None?
    ensures r.Ok? ==> (r.value.firstFilterFileName == GetDataFileName(r.value.fromDate)
                       && r.value.lastFilterFileName == GetDataFileName(r.value.toDate))
    ensures r.Ok? ==> StrLe(r.value.firstFilterFileName, r.value.lastFilterFileName)
    ensures r.Ok? ==> (r.value.dataDir == config.dataDir && r.value.outputFile == outputFile
                       && r.value.workingDir == workingDir)
  {
    match (ParseDate(fromText), ParseDate(toText))
    case (None, _) => Err(InvalidFromDate(fromText))
    case (Some(_), None) => Err(InvalidToDate(toText))
    case (Some(from), Some(to)) =>
      if !DateLe(from, to) then Err(FromAfterTo(from, to))
      else
        ParseThenFormatDate(fromText);
        ParseThenFormatDate(toText);
        DataFileNameMonotone(from, to);
        Ok(Setup(config.dataDir, None, GetDataFileName(from), GetDataFileName(to), from, to, outputFile, workingDir,
                 config.latencyChart, config.jitterChart, config.downloadChart, config.uploadChart))
  }

  /** Every record of a date in the chosen range lies in a month whose file is chosen:
      its file name is between the first and last file names of the setup. */
  lemma Mode2SelectsRecordMonths(workingDir: string, config: Config, fromText: string, toText: string,
                                 outputFile: string, date: NaiveDate)
    requires ConfigToSetupForMode2(workingDir, config, fromText, toText, outputFile).Ok?
    requires DateLe(ConfigToSetupForMode2(workingDir, config, fromText, toText, outputFile).value.fromDate, date)
    requires DateLe(date, ConfigToSetupForMode2(workingDir, config, fromText, toText, outputFile).value.toDate)
    ensures InRange(GetDataFileName(date),
                    ConfigToSetupForMode2(workingDir, config, fromText, toText, outputFile).value.firstFilterFileName,
                    ConfigToSetupForMode2(workingDir, config, fromText, toText, outputFile).value.lastFilterFileName)
  {
    var setup := ConfigToSetupForMode2(workingDir, config, fromText, toText, outputFile).value;
    DataFileNameMonotone(setup.fromDate, date);
    DataFileNameMonotone(date, setup.toDate);
  }
}
