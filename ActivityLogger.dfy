/** `ActivityLogger`: the recorder meant to write an activity to an slf4j logger, at most once,
    and only when the logger has the activity's level enabled. As written it never writes:
    `Record` is the intended behaviour and `RecordAsWritten` the code as it stands. */
module Logging {
  import opened Wrappers
  import opened OrderedMaps
  import Activities
  import Recorders

  /** `org.slf4j.event.Level`. */
  datatype LogLevel = TRACE | DEBUG | INFO | WARN | ERROR

  /** One call `logger.<level>(appendEntries(context), message)`. */
  datatype Emission = Emission(level: LogLevel, context: Entries, message: string)

  /** The slf4j logger: which levels are enabled, and what it has been given so far. */
  class Logger {
    var enabled: set<LogLevel>
    var emitted: seq<Emission>

    constructor (enabled: set<LogLevel>)
      ensures this.enabled == enabled && emitted == []
    {
      this.enabled := enabled;
      emitted := [];
    }

    /** `isInfoEnabled()`, `isWarnEnabled()`, ... */
    predicate IsEnabled(level: LogLevel)
      reads this
    {
      level in enabled
    }

    method Emit(level: LogLevel, context: Entries, message: string)
      modifies this
      ensures enabled == old(enabled)
      ensures emitted == old(emitted) + [Emission(level, context, message)]
    {
      emitted := emitted + [Emission(level, context, message)];
    }
  }

  /** The slf4j level an activity's `java.util.logging` level was evidently meant to select. */
  function ToLogLevel(level: Activities.Level): (r: LogLevel)
    ensures r != TRACE
    ensures (r == ERROR) == (level == Activities.SEVERE)
    ensures (r == WARN) == (level == Activities.WARNING)
    ensures (r == INFO) == (level == Activities.INFO)
    ensures (r == DEBUG) == (level == Activities.CONFIG)
  {
    match level
    case SEVERE => ERROR
    case WARNING => WARN
    case INFO => INFO
    case CONFIG => DEBUG
  }

  /** The slf4j constant `X` for which `X.equals(activity.level())` holds, as the code is written:
      none, because `activity.level()` is a `java.util.logging.Level` and an slf4j enum constant
      equals only itself. */
  function MatchingAsWritten(level: Activities.Level): Option<LogLevel>
  {
    None
  }

  /** The same comparison once the activity's level is translated to slf4j first. */
  function Matching(level: Activities.Level): Option<LogLevel>
  {
    Some(ToLogLevel(level))
  }

  /** The level `record` emits at, if any, given the slf4j level the activity's level equals
      (if any) and the logger's enabled levels. */
  function Gate(target: Option<LogLevel>, enabled: set<LogLevel>): (chosen: Option<LogLevel>)
    ensures chosen.Some? <==> target.Some? && target.value in enabled
    ensures chosen.Some? ==> chosen == target
  {
    if target == Some(INFO) && INFO in enabled then Some(INFO)
    else if target == Some(WARN) && WARN in enabled then Some(WARN)
    else if target == Some(ERROR) && ERROR in enabled then Some(ERROR)
    else if target == Some(DEBUG) && DEBUG in enabled then Some(DEBUG)
    else if target == Some(TRACE) && TRACE in enabled then Some(TRACE)
    else
      assert target.Some? ==> target.value.TRACE? || target.value.DEBUG? || target.value.INFO?
                              || target.value.WARN? || target.value.ERROR?;
      None
  }

  /** With the comparison as written, `record` emits nothing, whatever the level and the logger. */
  lemma AsWrittenNeverEmits(level: Activities.Level, enabled: set<LogLevel>)
    ensures Gate(MatchingAsWritten(level), enabled) == None
  {
  }

  /** With the translation, an activity at any level is emitted when, and only when, the logger
      enables the matching slf4j level, and then at that level. */
  lemma TranslatedEmitsIffEnabled(level: Activities.Level, enabled: set<LogLevel>)
    ensures Gate(Matching(level), enabled).Some? <==> ToLogLevel(level) in enabled
    ensures Gate(Matching(level), enabled).Some? ==> Gate(Matching(level), enabled).value == ToLogLevel(level)
  {
  }

  class ActivityLogger {
    const logger: Logger

    constructor Init(logger: Logger)
      ensures this.logger == logger
    {
      this.logger := logger;
    }

    /** `new ActivityLogger(logger)`: a null logger is refused. */
    static method New(logger: Logger?) returns (r: Result<ActivityLogger, IllegalArgument>)
      ensures r.Failure? <==> logger == null
      ensures r.Failure? ==> r.error == NullLogger
      ensures r.Success? ==> fresh(r.value) && r.value.logger == logger
    {
      if logger == null {
        return Failure(NullLogger);
      }
      var recorder := new ActivityLogger.Init(logger);
      return Success(recorder);
    }

    /** The else-if chain of `record`: the first branch whose level equals `target` and is enabled
        renders the activity's context (only then) and emits once. */
    method Dispatch(target: Option<LogLevel>, activity: Activities.Activity)
      requires activity.Valid()
      modifies logger, activity
      ensures activity.Valid() && logger.enabled == old(logger.enabled)
      ensures var chosen := Gate(target, old(logger.enabled));
        if chosen.Some? then
          && logger.emitted == old(logger.emitted) + [Emission(chosen.value, activity.Rendered(), activity.message)]
          && activity.cache == activity.Rendered()
        else
          && logger.emitted == old(logger.emitted)
          && activity.cache == old(activity.cache)
    {
      if target == Some(INFO) && logger.IsEnabled(INFO) {
        Write(INFO, activity);
      } else if target == Some(WARN) && logger.IsEnabled(WARN) {
        Write(WARN, activity);
      } else if target == Some(ERROR) && logger.IsEnabled(ERROR) {
        Write(ERROR, activity);
      } else if target == Some(DEBUG) && logger.IsEnabled(DEBUG) {
        Write(DEBUG, activity);
      } else if target == Some(TRACE) && logger.IsEnabled(TRACE) {
        Write(TRACE, activity);
      }
    }

    /** One branch's body: render the activity's context and emit it with the message at `level`. */
    method Write(level: LogLevel, activity: Activities.Activity)
      requires activity.Valid()
      modifies logger, activity
      ensures activity.Valid() && logger.enabled == old(logger.enabled)
      ensures logger.emitted == old(logger.emitted) + [Emission(level, activity.Rendered(), activity.message)]
      ensures activity.cache == activity.Rendered()
    {
      var context := activity.Context();
      logger.Emit(level, context, activity.message);
    }

    /** `record(activity)` exactly as written: no branch is ever taken. */
    method RecordAsWritten(activity: Activities.Activity, ghost log: Recorders.CallLog)
      requires activity.Valid()
      modifies logger, activity, log
      ensures logger.emitted == old(logger.emitted) && logger.enabled == old(logger.enabled)
      ensures activity.cache == old(activity.cache)
      ensures log.calls == old(log.calls) + [Recorders.Call(this, activity)]
    {
      Dispatch(MatchingAsWritten(activity.level), activity);
      log.calls := log.calls + [Recorders.Call(this, activity)];
    }

    /** `record(activity)` with the level translated: one emission at the activity's level,
        carrying its rendered context and message, when that level is enabled; otherwise
        nothing, and the activity's context is not even rendered. */
    method Record(activity: Activities.Activity, ghost log: Recorders.CallLog)
      requires activity.Valid()
      modifies logger, activity, log
      ensures activity.Valid() && logger.enabled == old(logger.enabled)
      ensures ToLogLevel(activity.level) in old(logger.enabled) ==>
        && logger.emitted == old(logger.emitted)
             + [Emission(ToLogLevel(activity.level), activity.Rendered(), activity.message)]
        && activity.cache == activity.Rendered()
      ensures ToLogLevel(activity.level) !in old(logger.enabled) ==>
        && logger.emitted == old(logger.emitted)
        && activity.cache == old(activity.cache)
      ensures log.calls == old(log.calls) + [Recorders.Call(this, activity)]
    {
      Dispatch(Matching(activity.level), activity);
      log.calls := log.calls + [Recorders.Call(this, activity)];
    }
  }
}
