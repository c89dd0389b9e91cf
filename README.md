# activity-feed, modelled in Dafny

This project models the core of the Java library `activity-feed`. An application describes
something that happened as an `Activity`. An activity has:

- a `java.util.logging` level;
- a non-blank identifier and message;
- an optional context factory that adds entries to the activity's ordered context map.

Activities are built with the static factories or with the fluent `ActivityBuilder`
(`ActivityFactory` is the same class under another name). An `ActivityFeed` passes every
activity to each of its recorders in order. The recorder the library ships, `ActivityLogger`,
is meant to write an activity to an slf4j logger when the logger has that level enabled. As
written it never writes anything (see "## Findings").
`ExceptionContext.extractForm` turns an exception and its chain of causes into a nested ordered
map. `SerializerFactory` makes serializers that write a mask in place of a sensitive value.

Modules, one per source file:

- `Wrappers` (`Wrappers.dfy`): `Option`, `Result`, and the `IllegalArgumentException` cases the
  library raises.
- `OrderedMaps` (`OrderedMaps.dfy`): a `LinkedHashMap<String, Object>` as a sequence of entries.
  `put` replaces a value in place or appends a new key. `putAll` puts the entries one after the
  other. The class `LinkedMap` is the mutable map object that the builder shares.
- `ExceptionContext` (`ExceptionContext.dfy`): `extractForm`, plus the JDK's rendering of a stack
  frame.
- `Activities` (`Activity.dfy`): the `Activity` class and its factories. The `context` field
  cache is the one mutable field. `context()` overwrites that cache.
- `Builders` (`ActivityBuilder.dfy`): the builder and its setters. `build()` dispatches on the
  level.
- `Logging` (`ActivityLogger.dfy`): the slf4j logger as a set of enabled levels and a log of
  emissions, plus `ActivityLogger.record`.
- `Recorders` (`ActivityRecorder.dfy`): what every `ActivityRecorder` shares. Each `record`
  call appends itself to a shared ghost call log. `ExternalRecorder` stands for a recorder
  defined outside the library. ActivityRecorder.java is not part of this model. Its one method,
  `record(activity)`, is what each call in the log stands for.
- `Feeds` (`ActivityFeed.dfy`): the feed, and `add` as a loop over its recorders. Each step hands
  the activity to one recorder.
- `Masking` (`SerializerFactory.dfy`): the three `forType` overloads as mask strategies.
- `Scenarios` (`Scenarios.dfy`): the behaviours the repository's tests check, stated for all
  inputs. They compare the builder with the factories, the exception entry, the builder's map
  shared with what it builds, a feed over one logger, and a feed over two recorders.

`build()` passes the lambda `context -> context.putAll(this.context)` as the activity's factory.
That lambda reads the builder's map when `context()` runs, not when `build()` runs. The model
keeps this: the factory `PutAllFrom(source)` holds the builder's `LinkedMap` object itself.
`Scenarios.EntryAddedAfterBuild` proves that an entry added after `build()` appears in the
activity's context.

ExceptionContextFactory.java is not part of this model. `withException` puts
`contextFrom(exception)`. The model uses `ExtractForm` in its place, which has the shape that
ExceptionContextFactoryTest.java checks: 5 entries, 6 with a cause, `previous` holding the
cause.

## Model

| member | source | states |
|---|---|---|
| OrderedMaps.PutEntry | src/main/java/com/montealegreluis/activityfeed/ActivityBuilder.java:56-59 | after `put` the map is never empty, and its first key stays first |
| OrderedMaps.PutGet | src/main/java/com/montealegreluis/activityfeed/ActivityBuilder.java:56-59 | after `put(k, v)`, key `k` reads `v` and every other key reads what it read before |
| OrderedMaps.PutInPlace | src/main/java/com/montealegreluis/activityfeed/ActivityBuilder.java:56-59 | `put` on a key already present replaces that entry at its position and leaves the rest alone |
| OrderedMaps.PutAppends | src/main/java/com/montealegreluis/activityfeed/ActivityBuilder.java:56-59 | `put` on a new key appends the entry at the end |
| OrderedMaps.PutDistinct | src/main/java/com/montealegreluis/activityfeed/ActivityBuilder.java:56-59 | `put` never creates a duplicate key |
| OrderedMaps.PutAllGet | src/main/java/com/montealegreluis/activityfeed/ActivityBuilder.java:61-70 | after `putAll(src)`, a key of `src` reads its value in `src`; any other key reads what it read before |
| OrderedMaps.PutAllAppends | src/main/java/com/montealegreluis/activityfeed/ActivityBuilder.java:61-70 | `putAll` of entries with fresh, distinct keys appends them in their order |
| OrderedMaps.PutAll | src/main/java/com/montealegreluis/activityfeed/ActivityBuilder.java:61-70 | `putAll` into a non-empty map keeps its first key first, so `identifier` stays first in `context()` |
| OrderedMaps.LinkedMap.Put | src/main/java/com/montealegreluis/activityfeed/ActivityBuilder.java:56-59 | the shared map's entries become those of `put`, and its keys stay distinct |
| ExceptionContext.Trace | src/main/java/com/montealegreluis/activityfeed/ExceptionContext.java:22-24 | the trace has one rendered string per frame, in stack order |
| ExceptionContext.ExtractForm | src/main/java/com/montealegreluis/activityfeed/ExceptionContext.java:13-29 | the map is never empty and `message` is its first key |
| ExceptionContext.WithTopFrame | src/main/java/com/montealegreluis/activityfeed/ExceptionContext.java:17-21 | the puts from the top frame never move the map's first key |
| ExceptionContext.TopFrameShape | src/main/java/com/montealegreluis/activityfeed/ExceptionContext.java:15-21 | after `message`, the top frame appends `class`, `line` and `file` in that order, and nothing when there is no frame |
| ExceptionContext.ExtractFormShape | src/main/java/com/montealegreluis/activityfeed/ExceptionContext.java:14-27 | the map is `message`, then `class`, `line` and `file` when there is a frame, then `trace`, then `previous` when there is a cause, in that order |
| ExceptionContext.ExtractFormSize | src/main/java/com/montealegreluis/activityfeed/ExceptionContext.java:14-27 | 2 entries with no frame and no cause, 3 more with a frame, 1 more with a cause |
| ExceptionContext.ExtractFormDistinct | src/main/java/com/montealegreluis/activityfeed/ExceptionContext.java:14-27 | no key appears twice |
| ExceptionContext.ExtractFormMessageAndTrace | src/main/java/com/montealegreluis/activityfeed/ExceptionContext.java:15-24 | `message` is always there and holds the message, null included; `trace` is always there and holds the rendered frames, empty when there are none |
| ExceptionContext.ExtractFormTopFrame | src/main/java/com/montealegreluis/activityfeed/ExceptionContext.java:16-21 | `class`, `line` and `file` are present exactly when there is a frame, and then come from frame 0 |
| ExceptionContext.ExtractFormPrevious | src/main/java/com/montealegreluis/activityfeed/ExceptionContext.java:25-27 | `previous` is present exactly when there is a cause, and then holds the cause's own map |
| ExceptionContext.PreviousDepthIsCauseCount | src/main/java/com/montealegreluis/activityfeed/ExceptionContext.java:25-27 | the nesting of `previous` maps is exactly as deep as the chain of causes, so the innermost cause has none |
| Activities.InnerContextIdentifier | src/main/java/com/montealegreluis/activityfeed/Activity.java:53-59 | the inner map starts with `identifier`; with no factory it is exactly `{identifier}`; `identifier` keeps the activity's identifier unless the factory puts that key |
| Activities.InnerContextAppends | src/main/java/com/montealegreluis/activityfeed/Activity.java:53-59 | when the factory's keys are distinct and do not include `identifier`, the inner map is the identifier followed by the factory's entries in order |
| Activities.InnerContextSingleEntry | src/main/java/com/montealegreluis/activityfeed/Activity.java:53-59 | a factory putting one entry yields the identifier followed by that entry, or only the entry when its key is `identifier` |
| Activities.Activity.New | src/main/java/com/montealegreluis/activityfeed/Activity.java:65-72 | a blank identifier is refused first, then a blank message; otherwise the activity keeps its arguments and has nothing cached |
| Activities.Activity.Info | src/main/java/com/montealegreluis/activityfeed/Activity.java:17-23 | as `New`, at level INFO |
| Activities.Activity.Warning | src/main/java/com/montealegreluis/activityfeed/Activity.java:25-31 | as `New`, at level WARNING |
| Activities.Activity.Error | src/main/java/com/montealegreluis/activityfeed/Activity.java:33-39 | as `New`, at level SEVERE |
| Activities.Activity.Debug | src/main/java/com/montealegreluis/activityfeed/Activity.java:41-47 | as `New`, at level CONFIG |
| Activities.Activity.Context | src/main/java/com/montealegreluis/activityfeed/Activity.java:53-59 | the cached map becomes exactly `{context: inner}` and is returned, so repeated calls do not accumulate entries |
| Activities.Activity.Equals | src/main/java/com/montealegreluis/activityfeed/Activity.java:9 | every activity is equal to itself |
| Activities.EqualityIgnoresFactory | src/main/java/com/montealegreluis/activityfeed/Activity.java:9-15 | equality ignores the factory: before rendering it is level, identifier and message; after rendering the inner maps must agree too |
| Builders.EffectiveLevel | src/main/java/com/montealegreluis/activityfeed/ActivityBuilder.java:61-70 | an unset level builds an error activity; a set level builds at that level |
| Builders.ActivityBuilder.constructor | src/main/java/com/montealegreluis/activityfeed/ActivityBuilder.java:11-18 | a new builder has no level, identifier or message, and a fresh empty map |
| Builders.ActivityBuilder.Debug | src/main/java/com/montealegreluis/activityfeed/ActivityBuilder.java:20-23 | sets the level to CONFIG and nothing else |
| Builders.ActivityBuilder.Info | src/main/java/com/montealegreluis/activityfeed/ActivityBuilder.java:25-28 | sets the level to INFO and nothing else |
| Builders.ActivityBuilder.Warning | src/main/java/com/montealegreluis/activityfeed/ActivityBuilder.java:30-33 | sets the level to WARNING and nothing else |
| Builders.ActivityBuilder.Error | src/main/java/com/montealegreluis/activityfeed/ActivityBuilder.java:35-38 | sets the level to SEVERE and nothing else |
| Builders.ActivityBuilder.WithIdentifier | src/main/java/com/montealegreluis/activityfeed/ActivityBuilder.java:40-43 | sets, or with null unsets, the identifier and nothing else |
| Builders.ActivityBuilder.WithMessage | src/main/java/com/montealegreluis/activityfeed/ActivityBuilder.java:45-48 | sets, or with null unsets, the message and nothing else |
| Builders.ActivityBuilder.WithException | src/main/java/com/montealegreluis/activityfeed/ActivityBuilder.java:50-54 | a null exception is refused and the map is untouched; otherwise the exception's map is put under `exception` |
| Builders.ActivityBuilder.With | src/main/java/com/montealegreluis/activityfeed/ActivityBuilder.java:56-59 | puts the entry into the builder's map |
| Builders.ActivityBuilder.Build | src/main/java/com/montealegreluis/activityfeed/ActivityBuilder.java:61-70 | builds at the effective level with the builder's identifier and message, failing as the factories do, and with a factory that reads the builder's live map |
| Logging.ToLogLevel | src/main/java/com/montealegreluis/activityfeed/ActivityLogger.java:19-28 | SEVERE, WARNING, INFO and CONFIG map one-to-one onto ERROR, WARN, INFO and DEBUG; nothing maps to TRACE |
| Logging.Gate | src/main/java/com/montealegreluis/activityfeed/ActivityLogger.java:19-28 | the else-if chain picks a level exactly when the activity's level equals one of the constants and the logger enables it, and then picks that level |
| Logging.AsWrittenNeverEmits | src/main/java/com/montealegreluis/activityfeed/ActivityLogger.java:19-28 | with the comparison as written, no branch is taken for any level and any logger |
| Logging.TranslatedEmitsIffEnabled | src/main/java/com/montealegreluis/activityfeed/ActivityLogger.java:19-28 | with the level translated, an activity is emitted exactly when the logger enables the matching level, and at that level |
| Logging.ActivityLogger.New | src/main/java/com/montealegreluis/activityfeed/ActivityLogger.java:12-15 | a null logger is refused; otherwise the recorder wraps that logger |
| Logging.ActivityLogger.Dispatch | src/main/java/com/montealegreluis/activityfeed/ActivityLogger.java:18-30 | when a branch is taken, the context is rendered and one emission with it and the message is logged; otherwise neither the logger nor the activity changes |
| Logging.ActivityLogger.Write | src/main/java/com/montealegreluis/activityfeed/ActivityLogger.java:20 | one branch's body: the activity's context is rendered and cached, and the logger gets exactly one emission with it and the message |
| Logging.ActivityLogger.RecordAsWritten | src/main/java/com/montealegreluis/activityfeed/ActivityLogger.java:18-30 | as written, `record` leaves the logger's output and the activity's cache unchanged; the call is logged |
| Logging.ActivityLogger.Record | src/main/java/com/montealegreluis/activityfeed/ActivityLogger.java:18-30 | corrected `record`: one emission at the matching level, with the rendered context and message, exactly when that level is enabled; the call is logged |
| Recorders.ExternalRecorder.Record | src/main/java/com/montealegreluis/activityfeed/ActivityFeed.java:20 | a recorder from outside the library is handed the activity, and the call is logged |
| Feeds.Deliveries | src/main/java/com/montealegreluis/activityfeed/ActivityFeed.java:19-21 | `forEach` makes exactly one call per recorder |
| Feeds.DeliveriesInOrder | src/main/java/com/montealegreluis/activityfeed/ActivityFeed.java:19-21 | every recorder is called exactly once, in list order, with the same activity |
| Feeds.DeliveriesSnoc | src/main/java/com/montealegreluis/activityfeed/ActivityFeed.java:19-21 | one more recorder means one more call, at the end |
| Feeds.LoggedTo | src/main/java/com/montealegreluis/activityfeed/ActivityFeed.java:19-21 | a logger gets at most one entry per recorder, and every entry is the activity's entry |
| Feeds.LoggedToNothing | src/main/java/com/montealegreluis/activityfeed/ActivityFeed.java:19-21 | a logger gets nothing exactly when no `ActivityLogger` in the list writes to it |
| Feeds.LoggedToSnoc | src/main/java/com/montealegreluis/activityfeed/ActivityFeed.java:19-21 | one more recorder adds one entry at the end, for its own logger only |
| Feeds.HandedTo | src/main/java/com/montealegreluis/activityfeed/ActivityFeed.java:19-21 | an external recorder is handed at most one activity per recorder, and always this activity |
| Feeds.HandedToSnoc | src/main/java/com/montealegreluis/activityfeed/ActivityFeed.java:19-21 | one more recorder hands the activity over once more, to itself only |
| Feeds.Snapshot | src/main/java/com/montealegreluis/activityfeed/ActivityFeed.java:19-21 | the state before `add` is what calling no recorder leaves behind |
| Feeds.RecordThrough | src/main/java/com/montealegreluis/activityfeed/ActivityFeed.java:20 | `recorder.record(activity)` through the interface: the call is logged; the logger behind an `ActivityLogger` gets the entry when its level is enabled; an external recorder is handed the activity; no other logger or recorder changes |
| Feeds.Step | src/main/java/com/montealegreluis/activityfeed/ActivityFeed.java:20 | one turn of `forEach`: after calling one more recorder, the state is the one the longer prefix describes |
| Feeds.ActivityFeed.New | src/main/java/com/montealegreluis/activityfeed/ActivityFeed.java:14-17 | an empty recorder list is refused; otherwise the feed holds that list |
| Feeds.ActivityFeed.WithLogging | src/main/java/com/montealegreluis/activityfeed/ActivityFeed.java:10-12 | a null logger is refused; otherwise the feed has exactly one recorder, an `ActivityLogger` over that logger |
| Feeds.ActivityFeed.Add | src/main/java/com/montealegreluis/activityfeed/ActivityFeed.java:19-21 | the call log grows by exactly one call per recorder, in list order, with the activity. Each logger behind the feed gets the activity's entry once per `ActivityLogger` over it when its level is enabled, and nothing otherwise. Each external recorder is handed the activity once per time it occurs in the list |
| Masking.Serialize | src/main/java/com/montealegreluis/activityfeed/SerializerFactory.java:17-34 | what `serialize` writes: only a masker can fail, and a literal mask is always written |
| Masking.ForTypeWithMask | src/main/java/com/montealegreluis/activityfeed/SerializerFactory.java:16-24 | every value of the target class is written as exactly the mask |
| Masking.ForType | src/main/java/com/montealegreluis/activityfeed/SerializerFactory.java:12-14 | every value of the target class is written as `*****` |
| Masking.ForTypeWithMasker | src/main/java/com/montealegreluis/activityfeed/SerializerFactory.java:26-34 | the output is exactly what the masker writes for the value, failure included |
| Masking.DefaultIsLiteral | src/main/java/com/montealegreluis/activityfeed/SerializerFactory.java:12-14 | `forType(target)` is `forType(target, "*****")` |
| Masking.LiteralHidesValue | src/main/java/com/montealegreluis/activityfeed/SerializerFactory.java:16-24 | under a literal mask, any two values give the same output |
| Masking.FirstAndLastVisible | src/test/java/com/montealegreluis/activityfeed/SerializerFactoryTest.java:43-49 | the test's masker gives the first character, the default mask, then the last character; an empty string has no output |
| Masking.FirstAndLastVisibleHidesMiddle | src/test/java/com/montealegreluis/activityfeed/SerializerFactoryTest.java:43-49 | values with the same first and last characters are masked alike |
| Masking.JaneDoeExamples | src/test/java/com/montealegreluis/activityfeed/SerializerFactoryTest.java:14-57 | "Jane Doe" is written `*****`, `REDACTED` and `J*****e` under the three strategies |
| Scenarios.BuildWithNothingSet | src/test/java/com/montealegreluis/activityfeed/ActivityFactoryTest.java:11-14 | building with nothing set fails on the identifier |
| Scenarios.BuildWithoutMessage | src/test/java/com/montealegreluis/activityfeed/ActivityFactoryTest.java:16-26 | building without a message always fails, on the identifier if that is blank and on the message otherwise |
| Scenarios.BuiltEqualsDirect | src/test/java/com/montealegreluis/activityfeed/ActivityFactoryTest.java:28-78 | the builder and the factory agree for every level and argument: the same failure, or equal activities |
| Scenarios.BuiltWithEntry | src/test/java/com/montealegreluis/activityfeed/ActivityFactoryTest.java:80-154 | `with(key, value)` builds an activity equal to one from a factory putting that entry, and both render the identifier, then the entry |
| Scenarios.NullExceptionRejected | src/test/java/com/montealegreluis/activityfeed/ActivityFactoryTest.java:156-159 | `withException(null)` is refused and adds nothing |
| Scenarios.BuiltWithException | src/test/java/com/montealegreluis/activityfeed/ActivityFactoryTest.java:161-180 | `withException(e)` builds an activity equal to one from a factory putting the exception's map under `exception`, and both render the same context |
| Scenarios.EntryAddedAfterBuild | src/main/java/com/montealegreluis/activityfeed/ActivityBuilder.java:61-70 | an entry added to the builder after `build()` appears in the built activity's context |
| Scenarios.FeedLogsActivity | src/test/java/com/montealegreluis/activityfeed/ActivityFeedTest.java:13-53 | a feed over a logger with every level enabled logs the activity once, at its matching level, with its context and message; as written it logs nothing |
| Scenarios.LoggerThenExternal | src/main/java/com/montealegreluis/activityfeed/ActivityFeed.java:19-21 | over an `ActivityLogger` and then an external recorder, the calls go to the two in that order, the logger gets one entry and the external recorder gets the activity once |
| Scenarios.FeedCallsRecordersInOrder | src/main/java/com/montealegreluis/activityfeed/ActivityFeed.java:19-21 | a feed over an `ActivityLogger` and then an external recorder calls both, in that order (the first call goes to the returned `ActivityLogger`, the second to the returned `ExternalRecorder`): the logger logs the activity's entry and the external recorder is handed the activity |

## Findings

| source | as written | input that shows it | evidently intended | confidence | as-written member | corrected member |
|---|---|---|---|---|---|---|
| src/main/java/com/montealegreluis/activityfeed/ActivityLogger.java:19-28 | each branch tests `X.equals(activity.level())`, where `X` is an `org.slf4j.event.Level` constant and `activity.level()` is a `java.util.logging.Level`, so no test is ever true and `record` never logs | `Activity.info("file-saved", "File saved")` recorded through a logger with every level enabled produces no output (`Scenarios.FeedLogsActivity`, second output) | log at the slf4j level matching the activity's level: SEVERE as ERROR, WARNING as WARN, INFO as INFO, CONFIG as DEBUG | high, not executed | Logging.ActivityLogger.RecordAsWritten | Logging.ActivityLogger.Record |

The feed uses the corrected `Record`. `Logging.AsWrittenNeverEmits` proves that the as-written
comparison selects no level. `Logging.TranslatedEmitsIffEnabled` proves the intended
behaviour. CONFIG to DEBUG is the evident counterpart among the branches the code has.

## Left out

- Activities.EqualityIgnoresFactory: compares cached maps as sequences, so order matters. `Map.equals` in Java ignores order, which makes the model stricter for maps with the same entries in another order. `hashCode` is not modelled.
- Activities.IsBlank: counts only ASCII whitespace as blank. The assertions library is not part of this model, and Unicode whitespace outside ASCII is not modelled.
- ExceptionContext.Render: follows the JDK 8 form `Class.method(File:Line)`, with `Native Method` and `Unknown Source`. The module and class-loader prefixes that later JDKs add are not modelled.
- Feeds.ActivityFeed.New: keeps the recorder list as a value. Java keeps the caller's `List`, so later changes the caller makes to that list would reach the feed.
- Feeds.ActivityFeed.Add: recorders other than `ActivityLogger` are `ExternalRecorder`s, known only by the activities they are handed. What a real recorder does with an activity is not modelled. The ghost call log that every recorder appends to has no Java counterpart; it is how the model observes which recorder is called, and when. Every `record` call is assumed to return normally. Java's `forEach` (ActivityFeed.java:20) has no `try`, so a recorder that throws (an external recorder, or the slf4j call inside an `ActivityLogger`) stops the fan-out: the recorders after it are never called and the exception reaches the caller of `add`. The model does not capture that partial delivery. The activity's cache after `add` is stated only as either the old cache or the rendered one: an external recorder may call `context()` itself, so the model leaves open which of the two it is.
- Activities.Activity.Context: returns the cache as a value. Java's `context()` returns the live `context` field (Activity.java:58), so a caller that changes the returned map changes the activity's cache. That aliasing, and any change a caller makes through it, is not modelled. `Activity.Valid()` also requires the cache to be empty or to hold the single key `context`. This holds for every state that `context()` produces, but Java does not guarantee it once a caller has changed the map.
- ExceptionContext.ExtractForm: a `Throwable` is an inductive datatype, so its chain of causes is finite and acyclic. In Java, `initCause` can build a cycle through two or more exceptions. On such a cycle `extractForm` (ExceptionContext.java:25-26) recurses until it throws `StackOverflowError`. That case is not modelled.
- Logging.ActivityLogger.Record: the logstash `appendEntries` marker is an emission holding the rendered entries. Java's marker keeps a reference to the activity's live map, and later `context()` calls refresh that map.
- Context factories: modelled are absent, fixed puts, and the builder's `putAll` of its live map. Arbitrary `ContextFactory` callbacks that read or remove entries are not.
- Null map keys are not modelled. Null values are `Value.Null`. Object values other than strings, integers, maps and lists are `Value.Opaque`.
- Levels: only the four `java.util.logging` levels the factories use.
- The accessors `message()` and `level()` are the constant fields `message` and `level`.
- ContextSerializer.java and SerializerFailure.java are Jackson object-mapper round-trips and message formatting.
- MaskedValueSerializer.java and ValueMasker.java are a one-line writer and a bare interface. A masker is a function from the value to what it writes.
- Jackson's `JsonGenerator` is the one string written. A masker that throws is `None`: an `IOException`, and also the `StringIndexOutOfBoundsException` that `charAt(0)` throws on the empty string in `Masking.FirstAndLastVisible`.
- Masking.FirstAndLastVisible: a Dafny `char` is a whole Unicode character, while Java's `charAt` and `substring` work on UTF-16 code units. For a value that starts or ends with a character outside the Basic Multilingual Plane, Java writes half a surrogate pair and the model writes the whole character.
- The stale test APIs are left out: `anErrorActivity()`, `Activity.trace`, `new ActivityFeed(logger)`, `feed.log`, and a `Map` passed as a `ContextFactory`. `Scenarios.FeedLogsActivity` uses `withLogging` and `add` instead.
- Concurrency: the code has none, and none is modelled.
