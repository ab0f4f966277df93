/**
  The two logging filters of log_filters.py. Each decides, from a record's level
  name alone, whether a handler emits it: one lets through the verbose levels
  (DEBUG, INFO, WARNING), the other the failure levels (ERROR, CRITICAL).
*/
module LogFilters {

  /** A log record; the filters look at nothing but its level name. */
  datatype LogRecord = LogRecord(levelName: string, message: string)

  /** The standard levels of Python's logging module. */
  datatype Level = NotSet | Debug | Info | Warning | Error | Critical

  /** The level name the logging module writes into a record of that level. */
  function Name(l: Level): string {
    match l
    case NotSet => "NOTSET"
    case Debug => "DEBUG"
    case Info => "INFO"
    case Warning => "WARNING"
    case Error => "ERROR"
    case Critical => "CRITICAL"
  }

  /** The numeric value of each level. */
  function Severity(l: Level): nat {
    match l
    case NotSet => 0
    case Debug => 10
    case Info => 20
    case Warning => 30
    case Error => 40
    case Critical => 50
  }

  /** Different levels have different names. */
  lemma NameInjective(l: Level, m: Level)
    requires Name(l) == Name(m)
    ensures l == m
  {
  }

  /**
    DebugToWarningLogFilter.filter: the record passes exactly when its level
    name is that of a set level below ERROR.
  */
  function DebugToWarning(record: LogRecord): (pass: bool)
    ensures pass <==> exists l :: l != NotSet && Severity(l) < 40 && Name(l) == record.levelName
  {
    var r := record.levelName in ["INFO", "DEBUG", "WARNING"];
    assert r ==> Name(Info) == record.levelName || Name(Debug) == record.levelName
                 || Name(Warning) == record.levelName;
    r
  }

  /**
    ErrorOrCriticalLogFilter.filter: the record passes exactly when its level
    name is that of a level at ERROR or above.
  */
  function ErrorOrCritical(record: LogRecord): (pass: bool)
    ensures pass <==> exists l :: Severity(l) >= 40 && Name(l) == record.levelName
  {
    var r := record.levelName in ["ERROR", "CRITICAL"];
    assert r ==> Name(Error) == record.levelName || Name(Critical) == record.levelName;
    r
  }

  /** No record passes both filters. */
  lemma FiltersDisjoint(record: LogRecord)
    ensures !(DebugToWarning(record) && ErrorOrCritical(record))
  {
    if DebugToWarning(record) && ErrorOrCritical(record) {
      var l :| l != NotSet && Severity(l) < 40 && Name(l) == record.levelName;
      var m :| Severity(m) >= 40 && Name(m) == record.levelName;
      NameInjective(l, m);
    }
  }

  /** A record of any set level passes exactly one of the two filters. */
  lemma SetLevelPassesOne(l: Level, message: string)
    requires l != NotSet
    ensures var record := LogRecord(Name(l), message);
            DebugToWarning(record) != ErrorOrCritical(record)
  {
    var record := LogRecord(Name(l), message);
    FiltersDisjoint(record);
    if Severity(l) < 40 {
      assert DebugToWarning(record);
    } else {
      assert ErrorOrCritical(record);
    }
  }

  /** A record passes some filter exactly when its level name is that of a set level. */
  lemma PassesOnlySetLevels(record: LogRecord)
    ensures DebugToWarning(record) || ErrorOrCritical(record)
            <==> exists l :: l != NotSet && Name(l) == record.levelName
  {
    if l :| l != NotSet && Name(l) == record.levelName {
      SetLevelPassesOne(l, record.message);
      assert record == LogRecord(Name(l), record.message);
    }
  }

  /** NOTSET and names in another letter case pass neither filter. */
  lemma OtherNamesPassNeither(message: string)
    ensures !DebugToWarning(LogRecord("NOTSET", message)) && !ErrorOrCritical(LogRecord("NOTSET", message))
    ensures !DebugToWarning(LogRecord("info", message)) && !ErrorOrCritical(LogRecord("info", message))
  {
  }
}
