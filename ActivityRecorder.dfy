/** `ActivityRecorder`: anything a feed can hand an activity to. Every recorder reports the call
    it receives in a shared ghost log, so the order in which a feed calls its recorders is
    observable. */
module Recorders {
  import Activities

  /** One call `recorder.record(activity)`. */
  datatype Call = Call(recorder: object, activity: Activities.Activity)

  /** Every `record` call made so far, by any recorder, in the order they were made. */
  class CallLog {
    ghost var calls: seq<Call>

    constructor ()
      ensures calls == []
    {
      calls := [];
    }
  }

  /** A recorder defined outside the library: all that is known of it is the activities it has
      been handed, in order. */
  class ExternalRecorder {
    var received: seq<Activities.Activity>

    constructor ()
      ensures received == []
    {
      received := [];
    }

    /** `record(activity)`: the activity is handed over and the call is logged. */
    method Record(activity: Activities.Activity, ghost log: CallLog)
      modifies this, log
      ensures received == old(received) + [activity]
      ensures log.calls == old(log.calls) + [Call(this, activity)]
    {
      received := received + [activity];
      log.calls := log.calls + [Call(this, activity)];
    }
  }
}
