/** The fluent builder (`ActivityBuilder`; `ActivityFactory` is the same class under another name):
    setters overwrite its fields and put into its own ordered map, and `build()` dispatches on
    the level to one of the `Activity` factories. */
module Builders {
  import opened Wrappers
  import opened OrderedMaps
  import opened ExceptionContext
  import opened Activities

  /** The level `build()` dispatches to: CONFIG, INFO and WARNING go to their own factory,
      anything else, an unset level included, goes to `error`. */
  function EffectiveLevel(level: Option<Level>): (r: Level)
    ensures level.None? ==> r == SEVERE
    ensures level.Some? ==> r == level.value
  {
    match level
    case Some(CONFIG) => CONFIG
    case Some(INFO) => INFO
    case Some(WARNING) => WARNING
    case _ => SEVERE
  }

  class ActivityBuilder {
    /** The builder's `LinkedHashMap`, shared with every activity it builds. */
    const context: LinkedMap
    var level: Option<Level>
    var identifier: Option<string>
    var message: Option<string>

    ghost predicate Valid()
      reads this, context
    {
      context.Valid()
    }

    /** `anActivity()`: nothing set, no entries. */
    constructor ()
      ensures Valid() && fresh(context) && context.entries == []
      ensures level == None && identifier == None && message == None
    {
      context := new LinkedMap();
      level, identifier, message := None, None, None;
    }

    /** `debug()`: the last level setter called wins. */
    method Debug()
      modifies this
      ensures level == Some(CONFIG)
      ensures identifier == old(identifier) && message == old(message)
    {
      level := Some(CONFIG);
    }

    /** `info()`. */
    method Info()
      modifies this
      ensures level == Some(INFO)
      ensures identifier == old(identifier) && message == old(message)
    {
      level := Some(INFO);
    }

    /** `warning()`. */
    method Warning()
      modifies this
      ensures level == Some(WARNING)
      ensures identifier == old(identifier) && message == old(message)
    {
      level := Some(WARNING);
    }

    /** `error()`. */
    method Error()
      modifies this
      ensures level == Some(SEVERE)
      ensures identifier == old(identifier) && message == old(message)
    {
      level := Some(SEVERE);
    }

    /** `withIdentifier(identifier)`; a `null` argument unsets it. */
    method WithIdentifier(identifier: Option<string>)
      modifies this
      ensures this.identifier == identifier
      ensures level == old(level) && message == old(message)
    {
      this.identifier := identifier;
    }

    /** `withMessage(message)`. */
    method WithMessage(message: Option<string>)
      modifies this
      ensures this.message == message
      ensures level == old(level) && identifier == old(identifier)
    {
      this.message := message;
    }

    /** `with(key, value)`: a new key goes last, a repeated key keeps its place with the new value. */
    method With(key: string, value: Value)
      requires Valid()
      modifies context
      ensures Valid()
      ensures context.entries == PutEntry(old(context.entries), key, value)
    {
      context.Put(key, value);
    }

    /** `withException(exception)`: a null exception fails and leaves the map alone; otherwise
        the exception's context goes under `exception`. */
    method WithException(exception: Option<Throwable>) returns (failure: Option<IllegalArgument>)
      requires Valid()
      modifies context
      ensures Valid()
      ensures exception.None? ==> failure == Some(NullException) && context.entries == old(context.entries)
      ensures exception.Some? ==>
        && failure == None
        && context.entries == PutEntry(old(context.entries), "exception", Nested(ExtractForm(exception.value)))
    {
      if exception.None? {
        return Some(NullException);
      }
      context.Put("exception", Nested(ExtractForm(exception.value)));
      failure := None;
    }

    /** `build()`: the activity's factory is `context -> context.putAll(this.context)`, which
        captures the builder's live map rather than a copy of its entries. */
    method Build() returns (r: Result<Activity, IllegalArgument>)
      ensures Outcome(r, EffectiveLevel(level), identifier, message, PutAllFrom(context))
      ensures r.Success? ==> fresh(r.value)
    {
      var factory := PutAllFrom(context);
      if level == Some(CONFIG) {
        r := Activity.Debug(identifier, message, factory);
      } else if level == Some(INFO) {
        r := Activity.Info(identifier, message, factory);
      } else if level == Some(WARNING) {
        r := Activity.Warning(identifier, message, factory);
      } else {
        r := Activity.Error(identifier, message, factory);
      }
    }
  }

  /** `ActivityFactory` has the same fields, methods and bodies as `ActivityBuilder`. */
  type ActivityFactory = ActivityBuilder
}
