/** The behaviours the repository's tests exercise, stated for all inputs: the builder against
    the `Activity` factories, the exception entry, the map the builder shares with what it
    builds, and a feed over a logger. */
module Scenarios {
  import opened Wrappers
  import opened OrderedMaps
  import opened ExceptionContext
  import opened Activities
  import opened Builders
  import Logging
  import Feeds
  import Recorders

  /** The public factory for `level`: `Activity.info(...)`, `warning`, `error` or `debug`. */
  method Direct(level: Level, identifier: Option<string>, message: Option<string>, factory: ContextFactory)
    returns (r: Result<Activity, IllegalArgument>)
    ensures Outcome(r, level, identifier, message, factory)
    ensures r.Success? ==> fresh(r.value)
  {
    match level
    case INFO => r := Activity.Info(identifier, message, factory);
    case WARNING => r := Activity.Warning(identifier, message, factory);
    case SEVERE => r := Activity.Error(identifier, message, factory);
    case CONFIG => r := Activity.Debug(identifier, message, factory);
  }

  /** The builder's setter for `level`. */
  method SetLevel(b: ActivityBuilder, level: Level)
    modifies b
    ensures b.level == Some(level)
    ensures b.identifier == old(b.identifier) && b.message == old(b.message)
  {
    match level
    case INFO => b.Info();
    case WARNING => b.Warning();
    case SEVERE => b.Error();
    case CONFIG => b.Debug();
  }

  /** `anActivity().build()`: with nothing set the level falls back to error and the missing
      identifier is what fails. */
  method BuildWithNothingSet() returns (r: Result<Activity, IllegalArgument>)
    ensures r.Failure? && r.error == BlankIdentifier
  {
    var b := new ActivityBuilder();
    r := b.Build();
  }

  /** `anActivity().<level>().withIdentifier(identifier).build()`: without a message the build
      fails, naming the identifier when that is blank too and the message otherwise. */
  method BuildWithoutMessage(level: Level, identifier: Option<string>) returns (r: Result<Activity, IllegalArgument>)
    ensures r.Failure?
    ensures r.error == (if IsBlank(identifier) then BlankIdentifier else BlankMessage)
  {
    var b := new ActivityBuilder();
    SetLevel(b, level);
    b.WithIdentifier(identifier);
    r := b.Build();
  }

  /** Building with the builder and calling the factory directly agree for every level,
      identifier and message: the same failure, or activities that are equal. */
  method BuiltEqualsDirect(level: Level, identifier: Option<string>, message: Option<string>)
    returns (built: Result<Activity, IllegalArgument>, direct: Result<Activity, IllegalArgument>)
    ensures built.Failure? <==> direct.Failure?
    ensures built.Failure? ==> built.error == direct.error
    ensures built.Success? ==> built.value.Equals(direct.value)
  {
    var b := new ActivityBuilder();
    SetLevel(b, level);
    b.WithIdentifier(identifier);
    b.WithMessage(message);
    built := b.Build();
    direct := Direct(level, identifier, message, NoFactory);
  }

  /** `.with(key, value).build()` against a factory callback that puts the same entry: the two
      activities are equal, and so are their rendered contexts, which hold the identifier and
      then the entry (or only the entry's value under `identifier`, when that is the key). */
  method BuiltWithEntry(level: Level, identifier: string, message: string, key: string, value: Value)
    returns (equal: bool, builtContext: Entries, directContext: Entries)
    requires !IsBlank(Some(identifier)) && !IsBlank(Some(message))
    ensures equal
    ensures builtContext == directContext
    ensures key != "identifier" ==>
      builtContext == [("context", Nested([("identifier", Text(identifier)), (key, value)]))]
    ensures key == "identifier" ==> builtContext == [("context", Nested([("identifier", value)]))]
  {
    var b := new ActivityBuilder();
    SetLevel(b, level);
    b.WithIdentifier(Some(identifier));
    b.WithMessage(Some(message));
    b.With(key, value);
    assert b.context.entries == [(key, value)];
    var built := b.Build();
    var direct := Direct(level, Some(identifier), Some(message), Puts([(key, value)]));
    builtContext := built.value.Context();
    directContext := direct.value.Context();
    InnerContextSingleEntry(identifier, built.value.factory, key, value);
    InnerContextSingleEntry(identifier, direct.value.factory, key, value);
    equal := built.value.Equals(direct.value);
  }

  /** `withException(null)` is refused and adds nothing. */
  method NullExceptionRejected() returns (failure: Option<IllegalArgument>, entries: Entries)
    ensures failure == Some(NullException)
    ensures entries == []
  {
    var b := new ActivityBuilder();
    b.Error();
    failure := b.WithException(None);
    entries := b.context.entries;
  }

  /** `.withException(e).build()` against a factory that puts `contextFrom(e)` under
      `exception`: the two activities are equal, and both render the identifier, then the
      exception's own map. */
  method BuiltWithException(identifier: string, message: string, e: Throwable)
    returns (equal: bool, builtContext: Entries, directContext: Entries)
    requires !IsBlank(Some(identifier)) && !IsBlank(Some(message))
    ensures equal
    ensures builtContext == directContext
    ensures builtContext ==
      [("context", Nested([("identifier", Text(identifier)), ("exception", Nested(ExtractForm(e)))]))]
  {
    var b := new ActivityBuilder();
    b.Error();
    b.WithIdentifier(Some(identifier));
    b.WithMessage(Some(message));
    var failure := b.WithException(Some(e));
    var entry := ("exception", Nested(ExtractForm(e)));
    assert b.context.entries == [entry];
    var built := b.Build();
    var direct := Direct(SEVERE, Some(identifier), Some(message), Puts([entry]));
    builtContext := built.value.Context();
    directContext := direct.value.Context();
    InnerContextSingleEntry(identifier, built.value.factory, entry.0, entry.1);
    InnerContextSingleEntry(identifier, direct.value.factory, entry.0, entry.1);
    equal := built.value.Equals(direct.value);
  }

  /** The activity's factory reads the builder's map when `context()` runs, so an entry added
      to the builder after `build()` still shows up in the activity's context. */
  method EntryAddedAfterBuild(identifier: string, message: string, key: string, value: Value)
    returns (context: Entries)
    requires !IsBlank(Some(identifier)) && !IsBlank(Some(message))
    requires key != "identifier"
    ensures context == [("context", Nested([("identifier", Text(identifier)), (key, value)]))]
  {
    var b := new ActivityBuilder();
    b.Info();
    b.WithIdentifier(Some(identifier));
    b.WithMessage(Some(message));
    var built := b.Build();
    b.With(key, value);
    assert b.context.entries == [(key, value)];
    context := built.value.Context();
    InnerContextSingleEntry(identifier, built.value.factory, key, value);
  }

  /** A feed over one logger with every level enabled: adding an activity hands the logger one
      entry, at the slf4j level matching the activity's level, with its rendered context and its
      message; with the comparison as written the logger gets nothing. */
  method FeedLogsActivity(level: Level, identifier: string, message: string, entries: Entries)
    returns (emitted: seq<Logging.Emission>, emittedAsWritten: seq<Logging.Emission>)
    requires !IsBlank(Some(identifier)) && !IsBlank(Some(message))
    ensures emitted == [Logging.Emission(Logging.ToLogLevel(level),
                         [("context", Nested(InnerContext(identifier, Puts(entries))))], message)]
    ensures emittedAsWritten == []
  {
    var all := {Logging.TRACE, Logging.DEBUG, Logging.INFO, Logging.WARN, Logging.ERROR};
    var logger := new Logging.Logger(all);
    var feed := Feeds.ActivityFeed.WithLogging(logger);
    var activity := Direct(level, Some(identifier), Some(message), Puts(entries));
    var log := new Recorders.CallLog();
    assert feed.value.recorders[0] in feed.value.recorders;
    assert logger in feed.value.Loggers();
    assert feed.value.recorders[..0] == [];
    feed.value.Add(activity.value, log);
    emitted := logger.emitted;

    var other := new Logging.Logger(all);
    var recorder := new Logging.ActivityLogger.Init(other);
    recorder.RecordAsWritten(activity.value, log);
    emittedAsWritten := other.emitted;
  }

  /** Over the list `[ToLogger(r), External(x)]`: the calls go to `r` and then to `x`, the logger
      behind `r` gets one entry and `x` gets the activity once. */
  lemma {:induction false} LoggerThenExternal(r: Logging.ActivityLogger, x: Recorders.ExternalRecorder,
                                              activity: Activity, entry: Logging.Emission)
    ensures Feeds.Deliveries([Feeds.ToLogger(r), Feeds.External(x)], activity)
      == [Recorders.Call(r, activity), Recorders.Call(x, activity)]
    ensures Feeds.LoggedTo([Feeds.ToLogger(r), Feeds.External(x)], r.logger, entry) == [entry]
    ensures Feeds.HandedTo([Feeds.ToLogger(r), Feeds.External(x)], x, activity) == [activity]
  {
    var first, second := Feeds.ToLogger(r), Feeds.External(x);
    assert [first, second] == [first] + [second];
    assert [first] == [] + [first];
    Feeds.DeliveriesSnoc([first], second, activity);
    Feeds.DeliveriesSnoc([], first, activity);
    Feeds.LoggedToSnoc([first], second, r.logger, entry);
    Feeds.LoggedToSnoc([], first, r.logger, entry);
    Feeds.HandedToSnoc([first], second, x, activity);
    Feeds.HandedToSnoc([], first, x, activity);
  }

  /** A feed over an `ActivityLogger` and then an external recorder calls the two in that order,
      once each: the logger gets the activity's entry (its level enabled) and the external
      recorder is handed the activity. */
  method FeedCallsRecordersInOrder(level: Level, identifier: string, message: string)
    returns (ghost calls: seq<Recorders.Call>, emitted: seq<Logging.Emission>, received: seq<Activity>,
             first: Logging.ActivityLogger, second: Recorders.ExternalRecorder, activity: Activity)
    requires !IsBlank(Some(identifier)) && !IsBlank(Some(message))
    ensures calls == [Recorders.Call(first, activity), Recorders.Call(second, activity)]
    ensures first as object != second as object
    ensures emitted == [Logging.Emission(Logging.ToLogLevel(level),
                         [("context", Nested([("identifier", Text(identifier))]))], message)]
    ensures received == [activity]
  {
    var logger := new Logging.Logger({Logging.ToLogLevel(level)});
    var toLogger := new Logging.ActivityLogger.Init(logger);
    var external := new Recorders.ExternalRecorder();
    var recorders := [Feeds.ToLogger(toLogger), Feeds.External(external)];
    var feed := new Feeds.ActivityFeed.Init(recorders);
    var built := Direct(level, Some(identifier), Some(message), NoFactory);
    activity := built.value;
    var log := new Recorders.CallLog();
    assert recorders[0] in recorders && recorders[1] in recorders;
    assert logger in feed.Loggers() && external in feed.Externals();
    InnerContextIdentifier(identifier, NoFactory);
    LoggerThenExternal(toLogger, external, activity, Feeds.Entry(activity));
    feed.Add(activity, log);
    calls := log.calls;
    emitted := logger.emitted;
    received := external.received;
    first, second := toLogger, external;
  }
}
