/** `ActivityFeed`: a fixed, non-empty list of recorders, each handed every activity in turn. */
module Feeds {
  import opened Wrappers
  import Activities
  import Logging
  import Recorders
  import OrderedMaps

  /** An `ActivityRecorder`: the library's own `ActivityLogger`, or a recorder defined elsewhere. */
  datatype Recorder = ToLogger(recorder: Logging.ActivityLogger) | External(external: Recorders.ExternalRecorder)
  {
    /** The recorder object whose `record` is called. */
    function Target(): object
    {
      match this
      case ToLogger(r) => r
      case External(x) => x
    }
  }

  /** The calls `recorders.forEach(recorder -> recorder.record(activity))` makes, in order. */
  function Deliveries(recorders: seq<Recorder>, activity: Activities.Activity): (calls: seq<Recorders.Call>)
    ensures |calls| == |recorders|
  {
    if recorders == [] then []
    else [Recorders.Call(recorders[0].Target(), activity)] + Deliveries(recorders[1..], activity)
  }

  /** Every recorder is called exactly once, in list order, with the same activity. */
  lemma {:induction false} DeliveriesInOrder(recorders: seq<Recorder>, activity: Activities.Activity)
    ensures forall i :: 0 <= i < |recorders| ==>
      Deliveries(recorders, activity)[i] == Recorders.Call(recorders[i].Target(), activity)
  {
    if recorders != [] {
      DeliveriesInOrder(recorders[1..], activity);
    }
  }

  /** Calling one more recorder adds one more call at the end. */
  lemma {:induction false} DeliveriesSnoc(recorders: seq<Recorder>, r: Recorder, activity: Activities.Activity)
    ensures Deliveries(recorders + [r], activity) == Deliveries(recorders, activity) + [Recorders.Call(r.Target(), activity)]
  {
    if recorders != [] {
      assert (recorders + [r])[1..] == recorders[1..] + [r];
      DeliveriesSnoc(recorders[1..], r, activity);
    } else {
      assert recorders + [r] == [r];
    }
  }

  /** What `logger` is given when `recorders` each record an activity whose log entry is
      `entry`: one copy per `ActivityLogger` over that logger, in list order. */
  function LoggedTo(recorders: seq<Recorder>, logger: Logging.Logger, entry: Logging.Emission): (logged: seq<Logging.Emission>)
    ensures |logged| <= |recorders|
    ensures forall j :: 0 <= j < |logged| ==> logged[j] == entry
  {
    if recorders == [] then []
    else
      var last := recorders[|recorders| - 1];
      LoggedTo(recorders[..|recorders| - 1], logger, entry)
        + (if last.ToLogger? && last.recorder.logger == logger then [entry] else [])
  }

  /** A logger gets nothing exactly when no recorder in the list writes to it. */
  lemma {:induction false} LoggedToNothing(recorders: seq<Recorder>, logger: Logging.Logger, entry: Logging.Emission)
    ensures LoggedTo(recorders, logger, entry) == [] <==>
      forall i :: 0 <= i < |recorders| && recorders[i].ToLogger? ==> recorders[i].recorder.logger != logger
  {
    if recorders != [] {
      var init := recorders[..|recorders| - 1];
      LoggedToNothing(init, logger, entry);
      assert forall i :: 0 <= i < |init| ==> init[i] == recorders[i];
    }
  }

  /** What the external recorder `x` is handed: the activity once per occurrence of `x`. */
  function HandedTo(recorders: seq<Recorder>, x: Recorders.ExternalRecorder, activity: Activities.Activity)
    : (handed: seq<Activities.Activity>)
    ensures |handed| <= |recorders|
    ensures forall j :: 0 <= j < |handed| ==> handed[j] == activity
  {
    if recorders == [] then []
    else
      var last := recorders[|recorders| - 1];
      HandedTo(recorders[..|recorders| - 1], x, activity)
        + (if last.External? && last.external == x then [activity] else [])
  }

  /** One more recorder adds at most one entry, at the end, for the logger it writes to. */
  lemma LoggedToSnoc(recorders: seq<Recorder>, r: Recorder, logger: Logging.Logger, entry: Logging.Emission)
    ensures LoggedTo(recorders + [r], logger, entry) ==
      LoggedTo(recorders, logger, entry) + (if r.ToLogger? && r.recorder.logger == logger then [entry] else [])
  {
    assert (recorders + [r])[..|recorders|] == recorders;
  }

  /** One more recorder hands the activity over at most once more, at the end. */
  lemma HandedToSnoc(recorders: seq<Recorder>, r: Recorder, x: Recorders.ExternalRecorder, activity: Activities.Activity)
    ensures HandedTo(recorders + [r], x, activity) ==
      HandedTo(recorders, x, activity) + (if r.External? && r.external == x then [activity] else [])
  {
    assert (recorders + [r])[..|recorders|] == recorders;
  }

  /** The entry the corrected `ActivityLogger.record` writes for an activity. */
  ghost function Entry(activity: Activities.Activity): Logging.Emission
    reads activity.factory.Footprint()
  {
    Logging.Emission(Logging.ToLogLevel(activity.level), activity.Rendered(), activity.message)
  }

  /** `recorder.record(activity)` through the `ActivityRecorder` interface: the logger behind an
      `ActivityLogger` gets the activity's entry when its level is enabled, an external recorder
      is handed the activity, and nothing else receives anything. */
  method RecordThrough(recorder: Recorder, activity: Activities.Activity, ghost log: Recorders.CallLog,
                  ghost loggers: set<Logging.Logger>, ghost externals: set<Recorders.ExternalRecorder>)
    requires activity.Valid()
    requires recorder.ToLogger? ==> recorder.recorder.logger in loggers
    requires recorder.External? ==> recorder.external in externals
    modifies activity, loggers, externals, log
    ensures activity.Valid() && Entry(activity) == old(Entry(activity))
    ensures activity.cache == old(activity.cache) || activity.cache == activity.Rendered()
    ensures log.calls == old(log.calls) + [Recorders.Call(recorder.Target(), activity)]
    ensures forall logger :: logger in loggers ==>
      && logger.enabled == old(logger.enabled)
      && logger.emitted == old(logger.emitted)
           + (if Logging.ToLogLevel(activity.level) in old(logger.enabled)
              then LoggedTo([recorder], logger, Entry(activity)) else [])
    ensures forall x :: x in externals ==> x.received == old(x.received) + HandedTo([recorder], x, activity)
  {
    assert [recorder][..0] == [];
    match recorder {
      case ToLogger(r) =>
        r.Record(activity, log);
      case External(x) =>
        x.Record(activity, log);
    }
  }

  /** What `add` starts from: the activity's log entry and cache, the calls made so far, and
      each logger's and external recorder's state. */
  datatype State = State(
    entry: Logging.Emission, cache: OrderedMaps.Entries, calls: seq<Recorders.Call>,
    enabled: map<Logging.Logger, set<Logging.LogLevel>>, emitted: map<Logging.Logger, seq<Logging.Emission>>,
    received: map<Recorders.ExternalRecorder, seq<Activities.Activity>>)

  /** The current state; it is what calling no recorder at all leaves behind. */
  ghost function Snapshot(activity: Activities.Activity, log: Recorders.CallLog,
                          loggers: set<Logging.Logger>, externals: set<Recorders.ExternalRecorder>): (s: State)
    requires activity.Valid()
    reads activity, activity.factory.Footprint(), log, loggers, externals
    ensures Delivered([], activity, log, loggers, externals, s)
  {
    State(Entry(activity), activity.cache, log.calls,
          map logger | logger in loggers :: logger.enabled,
          map logger | logger in loggers :: logger.emitted,
          map x | x in externals :: x.received)
  }

  /** The state after the recorders in `prefix` have been called in turn, starting from
      `before`: one call logged per recorder, in order; each logger holds its entries from
      before plus the activity's entry once per `ActivityLogger` over it in `prefix` (when its
      level is enabled); each external recorder has been handed the activity once per
      occurrence in `prefix`; the activity is still valid, keeps its entry and has either its
      old cache or its rendered context. */
  ghost predicate Delivered(prefix: seq<Recorder>, activity: Activities.Activity, log: Recorders.CallLog,
                            loggers: set<Logging.Logger>, externals: set<Recorders.ExternalRecorder>, before: State)
    reads activity, activity.factory.Footprint(), log, loggers, externals
  {
    && activity.Valid() && Entry(activity) == before.entry
    && (activity.cache == before.cache || activity.cache == activity.Rendered())
    && log.calls == before.calls + Deliveries(prefix, activity)
    && (forall logger :: logger in loggers ==>
          && logger in before.enabled && logger in before.emitted
          && logger.enabled == before.enabled[logger]
          && logger.emitted == before.emitted[logger]
               + (if Logging.ToLogLevel(activity.level) in before.enabled[logger]
                  then LoggedTo(prefix, logger, before.entry) else []))
    && (forall x :: x in externals ==>
          x in before.received && x.received == before.received[x] + HandedTo(prefix, x, activity))
  }

  /** Extending a prefix of a list by one element gives the next prefix. */
  lemma PrefixSnoc<T>(s: seq<T>, i: nat)
    requires i < |s|
    ensures s[..i + 1] == s[..i] + [s[i]]
  {
  }

  /** A logger's entries after `prefix` and then `recorder`. */
  lemma EmittedStep(start: seq<Logging.Emission>, middle: seq<Logging.Emission>, end: seq<Logging.Emission>,
                    on: bool, prefix: seq<Recorder>, recorder: Recorder, logger: Logging.Logger, entry: Logging.Emission)
    requires middle == start + (if on then LoggedTo(prefix, logger, entry) else [])
    requires end == middle + (if on then LoggedTo([recorder], logger, entry) else [])
    ensures end == start + (if on then LoggedTo(prefix + [recorder], logger, entry) else [])
  {
    LoggedToSnoc(prefix, recorder, logger, entry);
    assert [recorder][..0] == [];
  }

  /** An external recorder's activities after `prefix` and then `recorder`. */
  lemma ReceivedStep(start: seq<Activities.Activity>, middle: seq<Activities.Activity>, end: seq<Activities.Activity>,
                     prefix: seq<Recorder>, recorder: Recorder, x: Recorders.ExternalRecorder, activity: Activities.Activity)
    requires middle == start + HandedTo(prefix, x, activity)
    requires end == middle + HandedTo([recorder], x, activity)
    ensures end == start + HandedTo(prefix + [recorder], x, activity)
  {
    HandedToSnoc(prefix, recorder, x, activity);
    assert [recorder][..0] == [];
  }

  /** One turn of the `forEach`: calling `recorder` after `prefix` leaves the state that
      `prefix + [recorder]` describes. */
  method Step(prefix: seq<Recorder>, recorder: Recorder, activity: Activities.Activity, ghost log: Recorders.CallLog,
              ghost loggers: set<Logging.Logger>, ghost externals: set<Recorders.ExternalRecorder>, ghost before: State)
    requires recorder.ToLogger? ==> recorder.recorder.logger in loggers
    requires recorder.External? ==> recorder.external in externals
    requires Delivered(prefix, activity, log, loggers, externals, before)
    modifies activity, loggers, externals, log
    ensures Delivered(prefix + [recorder], activity, log, loggers, externals, before)
  {
    ghost var level := Logging.ToLogLevel(activity.level);
    RecordThrough(recorder, activity, log, loggers, externals);
    forall logger | logger in loggers
      ensures logger.emitted == before.emitted[logger]
        + (if level in before.enabled[logger] then LoggedTo(prefix + [recorder], logger, before.entry) else [])
    {
      EmittedStep(before.emitted[logger], old(logger.emitted), logger.emitted, level in before.enabled[logger],
                  prefix, recorder, logger, before.entry);
    }
    forall x | x in externals
      ensures x.received == before.received[x] + HandedTo(prefix + [recorder], x, activity)
    {
      ReceivedStep(before.received[x], old(x.received), x.received, prefix, recorder, x, activity);
    }
    DeliveriesSnoc(prefix, recorder, activity);
  }

  class ActivityFeed {
    const recorders: seq<Recorder>

    ghost predicate Valid()
      reads this
    {
      |recorders| > 0
    }

    /** The loggers behind the feed's `ActivityLogger` recorders. */
    ghost function Loggers(): set<Logging.Logger>
    {
      set r | r in recorders && r.ToLogger? :: r.recorder.logger
    }

    /** The feed's other recorders. */
    ghost function Externals(): set<Recorders.ExternalRecorder>
    {
      set r | r in recorders && r.External? :: r.external
    }

    constructor Init(recorders: seq<Recorder>)
      requires |recorders| > 0
      ensures Valid() && this.recorders == recorders
    {
      this.recorders := recorders;
    }

    /** `new ActivityFeed(recorders)`: an empty list is refused. */
    static method New(recorders: seq<Recorder>) returns (r: Result<ActivityFeed, IllegalArgument>)
      ensures r.Failure? <==> recorders == []
      ensures r.Failure? ==> r.error == EmptyRecorders
      ensures r.Success? ==> fresh(r.value) && r.value.Valid() && r.value.recorders == recorders
    {
      if recorders == [] {
        return Failure(EmptyRecorders);
      }
      var feed := new ActivityFeed.Init(recorders);
      return Success(feed);
    }

    /** `ActivityFeed.withLogging(logger)`: one recorder, an `ActivityLogger` over `logger`; a null
        logger fails in the `ActivityLogger` constructor. */
    static method WithLogging(logger: Logging.Logger?) returns (r: Result<ActivityFeed, IllegalArgument>)
      ensures r.Failure? <==> logger == null
      ensures r.Failure? ==> r.error == NullLogger
      ensures r.Success? ==>
        && fresh(r.value) && r.value.Valid()
        && |r.value.recorders| == 1 && r.value.recorders[0].ToLogger?
        && r.value.recorders[0].recorder.logger == logger
    {
      var recorder := Logging.ActivityLogger.New(logger);
      if recorder.Failure? {
        return Failure(recorder.error);
      }
      var feed := new ActivityFeed.Init([ToLogger(recorder.value)]);
      return Success(feed);
    }

    /** `add(activity)`: every recorder is called once, in list order, with this activity. Each
        logger behind the feed gets the activity's entry once per `ActivityLogger` over it when
        its level is enabled, and nothing otherwise; each external recorder is handed the activity
        once per occurrence in the list. */
    method Add(activity: Activities.Activity, ghost log: Recorders.CallLog)
      requires Valid() && activity.Valid()
      modifies activity, Loggers(), Externals(), log
      ensures activity.Valid()
      ensures activity.cache == old(activity.cache) || activity.cache == activity.Rendered()
      ensures log.calls == old(log.calls) + Deliveries(recorders, activity)
      ensures forall logger :: logger in Loggers() ==>
        && logger.enabled == old(logger.enabled)
        && logger.emitted == old(logger.emitted)
             + (if Logging.ToLogLevel(activity.level) in old(logger.enabled)
                then LoggedTo(recorders, logger, Entry(activity)) else [])
      ensures forall x :: x in Externals() ==>
        x.received == old(x.received) + HandedTo(recorders, x, activity)
    {
      ghost var loggers, externals := Loggers(), Externals();
      ghost var before := Snapshot(activity, log, loggers, externals);
      var i := 0;
      assert recorders[..0] == [];
      while i < |recorders|
        invariant 0 <= i <= |recorders|
        invariant Delivered(recorders[..i], activity, log, loggers, externals, before)
      {
        assert recorders[i] in recorders;
        Step(recorders[..i], recorders[i], activity, log, loggers, externals, before);
        PrefixSnoc(recorders, i);
        i := i + 1;
      }
      assert recorders[..i] == recorders;
    }
  }
}
