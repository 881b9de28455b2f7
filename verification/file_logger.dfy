/** The logger helpers: the level-name check, the daily CSV file name, the
    header written to a new or empty file, and the formatter that stamps host,
    environment and job id onto every record. Handlers, rotation, the console
    stream and the clock are outside the model; today's date and the
    current file contents are inputs. */
module FileLogger {
  import opened Exceptions
  import opened Strings
  import opened ConfigurationManager
  import opened OsEnvironmentSecretManager

  /* ---------------- level names ---------------- */

  /** The names `logging.getLevelName` knows, with their numeric levels. */
  const LevelNames: map<string, int> := map[
    "CRITICAL" := 50, "FATAL" := 50, "ERROR" := 40, "WARN" := 30,
    "WARNING" := 30, "INFO" := 20, "DEBUG" := 10, "NOTSET" := 0
  ]

  /** logging.DEBUG, INFO, WARNING, ERROR and CRITICAL. */
  const AcceptedLevels: set<int> := {10, 20, 30, 40, 50}

  /** What `logging.getLevelName(name)` returns for a string: the number of a
      registered name, otherwise the text "Level <name>". */
  datatype LevelLookup = LevelNumber(level: int) | LevelText(text: string)

  function GetLevelName(name: string): LevelLookup
  {
    if name in LevelNames then LevelNumber(LevelNames[name]) else LevelText("Level " + name)
  }

  /** `_get_logging_level`: upper-case the name, look it up, and accept only
      the five standard levels; NOTSET and unknown names raise ValueError. */
  function GetLoggingLevel(levelStr: string): (r: Result<int>)
    ensures r.Ok? <==> AsciiUpper(levelStr) in {"CRITICAL", "FATAL", "ERROR", "WARN", "WARNING", "INFO", "DEBUG"}
    ensures r.Ok? ==> r.value in AcceptedLevels
    ensures r.Raise? ==> r.exception == ValueError("Invalid logging level: " + AsciiUpper(levelStr))
  {
    var upper := AsciiUpper(levelStr);
    match GetLevelName(upper)
    case LevelNumber(level) =>
      if level in AcceptedLevels then Ok(level) else Raise(ValueError("Invalid logging level: " + upper))
    case LevelText(_) => Raise(ValueError("Invalid logging level: " + upper))
  }

  /** `a` and `b` differ at most in the case of ASCII letters. */
  predicate SameIgnoringAsciiCase(a: string, b: string)
  {
    && |a| == |b|
    && forall i :: 0 <= i < |a| ==>
         || a[i] == b[i]
         || (IsAsciiLower(a[i]) && b[i] as int == a[i] as int - 32)
         || (IsAsciiLower(b[i]) && a[i] as int == b[i] as int - 32)
  }

  /** The level name is case-insensitive. */
  lemma LevelNameCaseInsensitive(a: string, b: string)
    requires SameIgnoringAsciiCase(a, b)
    ensures GetLoggingLevel(a) == GetLoggingLevel(b)
  {
    assert AsciiUpper(a) == AsciiUpper(b) by {
      forall i | 0 <= i < |a|
        ensures UpperChar(a[i]) == UpperChar(b[i])
      {
      }
    }
  }

  /** NOTSET is a registered name but not an accepted level. */
  lemma NotsetRejected()
    ensures GetLoggingLevel("notset") == Raise(ValueError("Invalid logging level: NOTSET"))
  {
    assert AsciiUpper("notset") == "NOTSET";
  }

  /* ---------------- the log file name ---------------- */

  /** A calendar date as the UTC clock reports it. */
  datatype Date = Date(year: nat, month: nat, day: nat)

  predicate ValidDate(d: Date)
  {
    1 <= d.year <= 9999 && 1 <= d.month <= 12 && 1 <= d.day <= 31
  }

  /** `strftime('%Y-%m-%d')`. */
  function DateStamp(d: Date): string
  {
    ZeroPad(NatToDecimal(d.year), 4) + "-" + ZeroPad(NatToDecimal(d.month), 2) + "-" + ZeroPad(NatToDecimal(d.day), 2)
  }

  /** `"<dir>/<name>_<YYYY-MM-DD>.csv"`; `directoryPath` is the string form of
      the `Path` built from the configured directory. */
  function LogFileName(directoryPath: string, name: string, today: Date): string
  {
    directoryPath + "/" + name + "_" + DateStamp(today) + ".csv"
  }

  function Pow10(k: nat): nat
  {
    if k == 0 then 1 else 10 * Pow10(k - 1)
  }

  lemma {:induction false} DecimalLength(n: nat, k: nat)
    requires k >= 1 && n < Pow10(k)
    ensures |NatToDecimal(n)| <= k
  {
    if n >= 10 {
      assert k >= 2;
      assert n / 10 < Pow10(k - 1);
      DecimalLength(n / 10, k - 1);
    }
  }

  /** A number below 10^width written with `width` zero-padded digits. */
  lemma PaddedDigits(n: nat, width: nat)
    requires width >= 1 && n < Pow10(width)
    ensures |ZeroPad(NatToDecimal(n), width)| == width
    ensures forall i :: 0 <= i < width ==> IsDigit(ZeroPad(NatToDecimal(n), width)[i])
    ensures DecimalValue(ZeroPad(NatToDecimal(n), width)) == n
  {
    DecimalLength(n, width);
    ZeroPadValue(NatToDecimal(n), width);
    DecimalRoundTrip(n);
  }

  predicate AllDigits(s: string)
  {
    forall i :: 0 <= i < |s| ==> IsDigit(s[i])
  }

  /** Reads a `YYYY-MM-DD` stamp back into a date. */
  function ParseDateStamp(s: string): Option<Date>
  {
    if |s| == 10 && s[4] == '-' && s[7] == '-' && AllDigits(s[..4]) && AllDigits(s[5..7]) && AllDigits(s[8..])
    then Some(Date(DecimalValue(s[..4]), DecimalValue(s[5..7]), DecimalValue(s[8..])))
    else None
  }

  /** The parts a log file name is built from. */
  datatype LogFileParts = LogFileParts(directoryPath: string, name: string, today: Date)

  /** Reads a log file name back: ".csv" at the end, the ten-character stamp
      before it, '_' before that, and the name after the last '/'. */
  function ParseLogFileName(f: string): Option<LogFileParts>
  {
    if |f| < 16 || f[|f| - 4..] != ".csv" || f[|f| - 15] != '_' then None
    else
      var prefix := f[..|f| - 15];
      var slash := RFind(prefix, '/');
      if slash < 0 then None
      else
        match ParseDateStamp(f[|f| - 14..|f| - 4])
        case None => None
        case Some(d) => Some(LogFileParts(prefix[..slash], prefix[slash + 1..], d))
  }

  lemma DateStampRoundTrip(d: Date)
    requires ValidDate(d)
    ensures |DateStamp(d)| == 10
    ensures ParseDateStamp(DateStamp(d)) == Some(d)
  {
    assert Pow10(2) == 100 && Pow10(4) == 10000;
    PaddedDigits(d.year, 4);
    PaddedDigits(d.month, 2);
    PaddedDigits(d.day, 2);
    var y, m, dd := ZeroPad(NatToDecimal(d.year), 4), ZeroPad(NatToDecimal(d.month), 2), ZeroPad(NatToDecimal(d.day), 2);
    var s := DateStamp(d);
    assert s == y + "-" + m + "-" + dd;
    assert s[..4] == y && s[5..7] == m && s[8..] == dd;
  }

  /** The last '/' of `d/n` is the one after `d` when `n` holds none. */
  lemma {:induction false} LastSlashAfterDirectory(directoryPath: string, name: string)
    requires '/' !in name
    ensures RFind(directoryPath + "/" + name, '/') == |directoryPath|
  {
    assert directoryPath + "/" + name == directoryPath + ['/'] + name;
    assert forall j :: 0 <= j < |name| ==> name[j] != '/';
    RFindAfterSeparator(directoryPath, '/', name);
  }

  /** The pieces of `prefix + "_" + stamp + ".csv"` sit at fixed offsets from the end. */
  lemma TailOffsets(prefix: string, stamp: string)
    requires |stamp| == 10
    ensures var f := prefix + ("_" + stamp + ".csv");
      && |f| == |prefix| + 15
      && f[..|f| - 15] == prefix
      && f[|f| - 15] == '_'
      && f[|f| - 14..|f| - 4] == stamp
      && f[|f| - 4..] == ".csv"
  {
    var tail := "_" + stamp + ".csv";
    var f := prefix + tail;
    assert f[|f| - 15..] == tail;
    assert tail[1..11] == stamp && tail[11..] == ".csv";
  }

  /** The log file name loses nothing: directory, logger name and date can be
      read back, provided the logger name holds no '/'. */
  lemma LogFileNameRoundTrip(directoryPath: string, name: string, today: Date)
    requires ValidDate(today) && '/' !in name
    ensures ParseLogFileName(LogFileName(directoryPath, name, today)) == Some(LogFileParts(directoryPath, name, today))
  {
    DateStampRoundTrip(today);
    var stamp := DateStamp(today);
    var prefix := directoryPath + "/" + name;
    var f := LogFileName(directoryPath, name, today);
    assert f == prefix + ("_" + stamp + ".csv");
    TailOffsets(prefix, stamp);
    LastSlashAfterDirectory(directoryPath, name);
    assert prefix[..|directoryPath|] == directoryPath && prefix[|directoryPath| + 1..] == name;
  }

  /* ---------------- the header ---------------- */

  /** The file after `_initialize_logger`, given what was there: the header is
      appended when the file is missing or has size 0, otherwise the file is
      left alone. */
  function EnsureHeader(file: Option<string>): (r: string)
    ensures |r| > 0
    ensures file.Some? ==> |file.value| <= |r| && r[..|file.value|] == file.value
    ensures (file.Some? && r == file.value) <==> (file.Some? && file.value != "")
    ensures file.None? || file.value == "" ==> r == Header
  {
    if file.None? || file.value == "" then Header else file.value
  }

  /** Initialising twice writes the header once. */
  lemma EnsureHeaderIdempotent(file: Option<string>)
    ensures EnsureHeader(Some(EnsureHeader(file))) == EnsureHeader(file)
  {
  }

  /** The header's column titles, in order. */
  const HeaderColumns: seq<string> := ["Timestamp", "Hostname", "Environment", "Level", "Logger", "JobId",
                                       "Path", "LineNo", "ProcessID", "Message", "Traceback"]

  /** The header line: every column title followed by ';', then a newline
      ("Timestamp;Hostname;...;Traceback;\n"). */
  const Header := Join(HeaderColumns, ";") + ";\n"

  /** The record attributes the format string fills, in order. */
  const FormatFields: seq<string> := ["asctime", "hostname", "environment", "levelname", "name", "job_id",
                                      "pathname", "lineno", "process", "message"]

  /** The header column each record attribute belongs under. */
  function ColumnTitle(field: string): string
  {
    match field
    case "asctime" => "Timestamp"
    case "hostname" => "Hostname"
    case "environment" => "Environment"
    case "levelname" => "Level"
    case "name" => "Logger"
    case "job_id" => "JobId"
    case "pathname" => "Path"
    case "lineno" => "LineNo"
    case "process" => "ProcessID"
    case "message" => "Message"
    case _ => ""
  }

  /** The %-style placeholder of a record attribute: `d` for the two integers. */
  function Placeholder(field: string): string
  {
    "%(" + field + ")" + (if field == "lineno" || field == "process" then "d" else "s")
  }

  function Placeholders(fields: seq<string>): (r: seq<string>)
    ensures |r| == |fields|
    ensures forall i :: 0 <= i < |fields| ==> r[i] == Placeholder(fields[i])
  {
    seq(|fields|, i requires 0 <= i < |fields| => Placeholder(fields[i]))
  }

  /** The format string: the placeholders joined by ';'
      ("%(asctime)s;%(hostname)s;...;%(message)s"). */
  const FormatString := Join(Placeholders(FormatFields), ";")

  /** No column title and no placeholder contains the ';' separator. */
  lemma NoSeparatorInColumns()
    ensures forall i :: 0 <= i < |HeaderColumns| ==> ';' !in HeaderColumns[i]
    ensures forall i :: 0 <= i < |FormatFields| ==> ';' !in Placeholder(FormatFields[i])
  {
  }

  /** The first ten titles follow the ten format fields, in the same order. */
  lemma ColumnsMatchFields()
    ensures |HeaderColumns| == |FormatFields| + 1 && HeaderColumns[|FormatFields|] == "Traceback"
    ensures forall i :: 0 <= i < |FormatFields| ==> HeaderColumns[i] == ColumnTitle(FormatFields[i])
  {
  }

  /** Reading the header line back yields eleven columns, the first ten titled
      after the ten format fields in the same order and the last, Traceback,
      matched by no field; the format string reads back into its ten
      placeholders. */
  lemma HeaderColumnsFollowFormatFields()
    ensures Split(Header[..|Header| - 2], ';') == HeaderColumns
    ensures Split(FormatString, ';') == Placeholders(FormatFields)
    ensures |HeaderColumns| == |FormatFields| + 1 && HeaderColumns[|FormatFields|] == "Traceback"
    ensures forall i :: 0 <= i < |FormatFields| ==> HeaderColumns[i] == ColumnTitle(FormatFields[i])
  {
    NoSeparatorInColumns();
    ColumnsMatchFields();
    assert ";" == [';'];
    assert Header[..|Header| - 2] == Join(HeaderColumns, ";");
    SplitJoin(HeaderColumns, ';');
    SplitJoin(Placeholders(FormatFields), ';');
  }

  /* ---------------- the formatter ---------------- */

  /** The custom fields of `CustomFormatter`. */
  datatype Formatter = Formatter(hostname: string, environment: string, jobId: string)

  /** The attributes of a log record the format string reads. `message` is
      the merged message and `excText` the formatted traceback ("" if none). */
  datatype LogRecord = LogRecord(
    asctime: string, hostname: string, environment: string, levelname: string, name: string,
    jobId: string, pathname: string, lineno: int, process: int, message: string, excText: string)

  /** `CustomFormatter.set_job_id`. */
  function SetFormatterJobId(f: Formatter, jobId: string): (r: Formatter)
    ensures r.jobId == jobId && r.hostname == f.hostname && r.environment == f.environment
  {
    f.(jobId := jobId)
  }

  /** The attribute assignments at the start of `CustomFormatter.format`. */
  function Stamp(f: Formatter, record: LogRecord): (r: LogRecord)
    ensures r.hostname == f.hostname && r.environment == f.environment && r.jobId == f.jobId
    ensures r.(hostname := record.hostname, environment := record.environment, jobId := record.jobId) == record
  {
    record.(hostname := f.hostname, environment := f.environment, jobId := f.jobId)
  }

  /** The values the format string substitutes, in its order. */
  function FieldValues(r: LogRecord): seq<string>
  {
    [r.asctime, r.hostname, r.environment, r.levelname, r.name, r.jobId, r.pathname,
     IntToDecimal(r.lineno), IntToDecimal(r.process), r.message]
  }

  /** `CustomFormatter.format`: stamp, substitute, and append the traceback
      (on a new line) when there is one. */
  function Format(f: Formatter, record: LogRecord): (r: string)
    ensures var lead := record.asctime + ";" + (f.hostname + ";" + (f.environment + ";" + (record.levelname + ";"
                        + (record.name + ";" + (f.jobId + ";")))));
      |lead| <= |r| && r[..|lead|] == lead
  {
    var stamped := Stamp(f, record);
    var s := Join(FieldValues(stamped), ";");
    LeadBeginsFields(f, record);
    var r := if stamped.excText == "" then s
             else if |s| > 0 && s[|s| - 1] == '\n' then s + stamped.excText
             else s + "\n" + stamped.excText;
    assert r[..|s|] == s;
    r
  }

  /** The first six substituted fields, each with its separator, begin the join. */
  lemma LeadBeginsFields(f: Formatter, record: LogRecord)
    ensures var s := Join(FieldValues(Stamp(f, record)), ";");
      var lead := record.asctime + ";" + (f.hostname + ";" + (f.environment + ";" + (record.levelname + ";"
                  + (record.name + ";" + (f.jobId + ";")))));
      |lead| <= |s| && s[..|lead|] == lead
  {
    var v := FieldValues(Stamp(f, record));
    JoinLeadFrom(v, 0);
    assert v[0..] == v;
  }

  /** Whatever host, environment and job id a record carried before, the
      formatter's own values are the ones that appear. */
  lemma FormatIgnoresRecordStamps(f: Formatter, r1: LogRecord, r2: LogRecord)
    requires r1.(hostname := "", environment := "", jobId := "") == r2.(hostname := "", environment := "", jobId := "")
    ensures Format(f, r1) == Format(f, r2)
  {
    assert Stamp(f, r1) == Stamp(f, r2);
  }

  /** The substituted fields are the start of the formatted output; a
      traceback only ever follows them. */
  lemma FormatExtendsFields(f: Formatter, record: LogRecord)
    ensures var s := Join(FieldValues(Stamp(f, record)), ";");
      |s| <= |Format(f, record)| && Format(f, record)[..|s|] == s
  {
  }

  /** `v[k] + ";"` for each of the fields from `k` through the sixth. */
  function LeadFrom(v: seq<string>, k: nat): string
    requires k <= 5 < |v|
    decreases 5 - k
  {
    if k == 5 then v[5] + ";" else v[k] + ";" + LeadFrom(v, k + 1)
  }

  /** The first six of ten joined values, each followed by the separator, begin the join. */
  lemma {:induction false} JoinLeadFrom(v: seq<string>, k: nat)
    requires k <= 5 && |v| == 10
    ensures Join(v[k..], ";") == LeadFrom(v, k) + Join(v[6..], ";")
    decreases 5 - k
  {
    JoinStep(v, ";", k);
    if k < 5 {
      JoinLeadFrom(v, k + 1);
      var head := v[k] + ";";
      assert head + (LeadFrom(v, k + 1) + Join(v[6..], ";")) == head + LeadFrom(v, k + 1) + Join(v[6..], ";");
    }
  }

  /* ---------------- the logger ---------------- */

  /** A configured `FileLogger`: its name, numeric level, log file and formatter. */
  datatype FileLogger = FileLogger(name: string, level: int, logFile: string, formatter: Formatter)

  /** `FileLogger.set_job_id`: only the formatter's job id changes. */
  function SetJobId(logger: FileLogger, jobId: string): (r: FileLogger)
    ensures r.formatter.jobId == jobId
    ensures r.formatter.hostname == logger.formatter.hostname && r.formatter.environment == logger.formatter.environment
    ensures r.name == logger.name && r.level == logger.level && r.logFile == logger.logFile
  {
    logger.(formatter := SetFormatterJobId(logger.formatter, jobId))
  }

  /** After `set_job_id(j)` every formatted line carries `j` in the JobId column. */
  lemma JobIdReachesEveryLine(logger: FileLogger, jobId: string, record: LogRecord)
    ensures var f := SetJobId(logger, jobId).formatter;
      var lead := record.asctime + ";" + (f.hostname + ";" + (f.environment + ";" + (record.levelname + ";"
                  + (record.name + ";" + (jobId + ";")))));
      |lead| <= |Format(f, record)| && Format(f, record)[..|lead|] == lead
  {
  }

  /** A logger together with the contents of its log file after start-up. */
  datatype LoggerSetup = LoggerSetup(logger: FileLogger, logFileContents: string)

  const LevelKey := "file_logger.level"
  const DirectoryKey := "persistent-volume.logging"

  /** `FileLogger(name, configuration_manager)` once the level and directory
      lookups have answered: check the level, name today's file, write the
      header if needed and build the formatter from the host name and the
      ENVIRONMENT variable ("" when unset). `pathStr` is pathlib's string
      form of a directory path and `files` the current file contents. The
      failures are reported in source order: level lookup, directory
      lookup, level check. */
  function StartLogger(name: string, levelSetting: Result<string>, directory: Result<string>, env: Environment,
                       hostname: string, today: Date, pathStr: string -> string,
                       files: string -> Option<string>): (r: Result<LoggerSetup>)
    ensures r.Ok? <==> levelSetting.Ok? && directory.Ok? && GetLoggingLevel(levelSetting.value).Ok?
    ensures levelSetting.Raise? ==> r == Raise(levelSetting.exception)
    ensures levelSetting.Ok? && directory.Raise? ==> r == Raise(directory.exception)
    ensures levelSetting.Ok? && directory.Ok? && GetLoggingLevel(levelSetting.value).Raise? ==>
      r == Raise(GetLoggingLevel(levelSetting.value).exception)
    ensures r.Ok? ==>
      && r.value.logger.name == name
      && r.value.logger.level in AcceptedLevels
      && r.value.logger.logFile == LogFileName(pathStr(directory.value), name, today)
      && r.value.logFileContents == EnsureHeader(files(r.value.logger.logFile))
      && r.value.logger.formatter.hostname == hostname
      && r.value.logger.formatter.environment == (if "ENVIRONMENT" in env then env["ENVIRONMENT"] else "")
      && r.value.logger.formatter.jobId == ""
  {
    var setting :- levelSetting;
    var dir :- directory;
    var level :- GetLoggingLevel(setting);
    var logFile := LogFileName(pathStr(dir), name, today);
    var environment := if "ENVIRONMENT" in env then env["ENVIRONMENT"] else "";
    Ok(LoggerSetup(FileLogger(name, level, logFile, Formatter(hostname, environment, "")),
                   EnsureHeader(files(logFile))))
  }

  /** `FileLogger(name, configuration_manager)`: the level and the log
      directory are looked up under their keys. */
  function NewFileLogger(name: string, config: Configuration, containerStr: Value -> string, env: Environment,
                         hostname: string, today: Date, pathStr: string -> string,
                         files: string -> Option<string>): (r: Result<LoggerSetup>)
    ensures r.Ok? ==>
      && r.value.logger.name == name
      && r.value.logger.level in AcceptedLevels
      && r.value.logFileContents == EnsureHeader(files(r.value.logger.logFile))
      && r.value.logger.formatter.hostname == hostname
      && r.value.logger.formatter.environment == (if "ENVIRONMENT" in env then env["ENVIRONMENT"] else "")
      && r.value.logger.formatter.jobId == ""
  {
    StartLogger(name, GetValue(config, LevelKey, containerStr), GetValue(config, DirectoryKey, containerStr),
                env, hostname, today, pathStr, files)
  }
}
