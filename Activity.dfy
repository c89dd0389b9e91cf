/** The `Activity` value object: a level, an identifier, a message and a context factory, with the
    rendered context cached in a mutable field. */
module Activities {
  import opened Wrappers
  import opened OrderedMaps

  /** The `java.util.logging.Level` values the factories use. */
  datatype Level = SEVERE | WARNING | INFO | CONFIG

  /** The whitespace that `Assert.notBlank` ignores (the ASCII part of `Character.isWhitespace`). */
  predicate IsWhitespace(c: char) {
    c == ' ' || 9 <= c as int <= 13 || 28 <= c as int <= 31
  }

  /** `null`, empty, or whitespace only. */
  predicate IsBlank(s: Option<string>) {
    s.None? || forall i :: 0 <= i < |s.value| ==> IsWhitespace(s.value[i])
  }

  /** A `ContextFactory` callback: absent (`null`), a lambda that puts fixed entries one after the
      other, or a builder's `context -> context.putAll(this.context)`, which reads the builder's
      map when it runs, not when the activity is built. */
  datatype ContextFactory = NoFactory | Puts(entries: Entries) | PutAllFrom(source: LinkedMap)
  {
    function Footprint(): set<object> {
      if PutAllFrom? then {source} else {}
    }

    /** The entries the callback puts, in the order it puts them. */
    function Supplied(): Entries
      reads Footprint()
    {
      match this
      case NoFactory => []
      case Puts(entries) => entries
      case PutAllFrom(source) => source.entries
    }
  }

  /** `factory.addEntries(context)`, skipped when the factory is null. */
  function AddEntries(factory: ContextFactory, context: Entries): Entries
    reads factory.Footprint()
  {
    if factory.NoFactory? then context else PutAll(context, factory.Supplied())
  }

  /** The map `context()` nests under `"context"`: `identifier` first, then the factory's entries. */
  function InnerContext(identifier: string, factory: ContextFactory): Entries
    reads factory.Footprint()
  {
    AddEntries(factory, PutEntry([], "identifier", Text(identifier)))
  }

  /** The inner map always starts with the key `identifier`; with no factory it is exactly
      `{identifier}`; with a factory whose entries have distinct keys, `identifier` reads the
      activity's identifier unless the factory puts that key itself. */
  lemma InnerContextIdentifier(identifier: string, factory: ContextFactory)
    ensures InnerContext(identifier, factory) != []
    ensures InnerContext(identifier, factory)[0].0 == "identifier"
    ensures factory.NoFactory? ==> InnerContext(identifier, factory) == [("identifier", Text(identifier))]
    ensures DistinctKeys(factory.Supplied()) ==>
      Get(InnerContext(identifier, factory), "identifier") ==
        if "identifier" in Keys(factory.Supplied()) then Get(factory.Supplied(), "identifier")
        else Some(Text(identifier))
  {
    var start: Entries := [("identifier", Text(identifier))];
    assert PutEntry([], "identifier", Text(identifier)) == start;
    if DistinctKeys(factory.Supplied()) {
      PutAllGet(start, factory.Supplied(), "identifier");
    }
  }

  /** When the factory's entries have distinct keys and none is `identifier`, the inner map is
      `identifier` followed by those entries in their insertion order. */
  lemma InnerContextAppends(identifier: string, factory: ContextFactory)
    requires DistinctKeys(factory.Supplied())
    requires "identifier" !in Keys(factory.Supplied())
    ensures InnerContext(identifier, factory) == [("identifier", Text(identifier))] + factory.Supplied()
  {
    var start: Entries := [("identifier", Text(identifier))];
    assert PutEntry([], "identifier", Text(identifier)) == start;
    PutAllAppends(start, factory.Supplied());
  }

  /** A factory that puts one entry: it follows the identifier, or replaces its value when
      the entry's key is `identifier` itself. */
  lemma InnerContextSingleEntry(identifier: string, factory: ContextFactory, k: string, v: Value)
    requires !factory.NoFactory? && factory.Supplied() == [(k, v)]
    ensures InnerContext(identifier, factory) ==
      if k == "identifier" then [(k, v)] else [("identifier", Text(identifier)), (k, v)]
  {
    var start: Entries := [("identifier", Text(identifier))];
    assert PutEntry([], "identifier", Text(identifier)) == start;
    var rest: Entries := [(k, v)][1..];
    assert rest == [];
    assert InnerContext(identifier, factory) == PutAll(start, [(k, v)]);
    assert PutAll(start, [(k, v)]) == PutAll(PutEntry(start, k, v), rest);
    if k != "identifier" {
      PutAppends(start, k, v);
    }
  }

  class Activity {
    const level: Level
    const identifier: string
    const message: string
    const factory: ContextFactory
    /** The `context` field: empty until `context()` first runs, then `{"context": inner}`. */
    var cache: Entries

    ghost predicate Valid()
      reads this
    {
      && !IsBlank(Some(identifier))
      && !IsBlank(Some(message))
      && (cache == [] || (|cache| == 1 && cache[0].0 == "context"))
    }

    /** What `context()` returns: the single key `context`, holding the inner map. */
    function Rendered(): Entries
      reads factory.Footprint()
    {
      [("context", Nested(InnerContext(identifier, factory)))]
    }

    constructor Init(level: Level, identifier: string, message: string, factory: ContextFactory)
      requires !IsBlank(Some(identifier)) && !IsBlank(Some(message))
      ensures Valid()
      ensures this.level == level && this.identifier == identifier && this.message == message
      ensures this.factory == factory && cache == []
    {
      this.level := level;
      this.identifier := identifier;
      this.message := message;
      this.factory := factory;
      cache := [];
    }

    /** The private constructor: the identifier is checked first, then the message. */
    static method New(level: Level, identifier: Option<string>, message: Option<string>, factory: ContextFactory)
      returns (r: Result<Activity, IllegalArgument>)
      ensures Outcome(r, level, identifier, message, factory)
      ensures r.Success? ==> fresh(r.value)
    {
      if IsBlank(identifier) {
        return Failure(BlankIdentifier);
      }
      if IsBlank(message) {
        return Failure(BlankMessage);
      }
      var a := new Activity.Init(level, identifier.value, message.value, factory);
      return Success(a);
    }

    /** `Activity.info(identifier, message, factory)`; the two-argument form passes `NoFactory`. */
    static method Info(identifier: Option<string>, message: Option<string>, factory: ContextFactory)
      returns (r: Result<Activity, IllegalArgument>)
      ensures Outcome(r, INFO, identifier, message, factory)
      ensures r.Success? ==> fresh(r.value)
    {
      r := New(INFO, identifier, message, factory);
    }

    /** `Activity.warning(identifier, message, factory)`. */
    static method Warning(identifier: Option<string>, message: Option<string>, factory: ContextFactory)
      returns (r: Result<Activity, IllegalArgument>)
      ensures Outcome(r, WARNING, identifier, message, factory)
      ensures r.Success? ==> fresh(r.value)
    {
      r := New(WARNING, identifier, message, factory);
    }

    /** `Activity.error(identifier, message, factory)`. */
    static method Error(identifier: Option<string>, message: Option<string>, factory: ContextFactory)
      returns (r: Result<Activity, IllegalArgument>)
      ensures Outcome(r, SEVERE, identifier, message, factory)
      ensures r.Success? ==> fresh(r.value)
    {
      r := New(SEVERE, identifier, message, factory);
    }

    /** `Activity.debug(identifier, message, factory)`. */
    static method Debug(identifier: Option<string>, message: Option<string>, factory: ContextFactory)
      returns (r: Result<Activity, IllegalArgument>)
      ensures Outcome(r, CONFIG, identifier, message, factory)
      ensures r.Success? ==> fresh(r.value)
    {
      r := New(CONFIG, identifier, message, factory);
    }

    /** `context()`: builds the inner map afresh, overwrites the cached `context` entry with it
        and returns the cache, so repeated calls never accumulate entries. */
    method Context() returns (m: Entries)
      requires Valid()
      modifies this
      ensures Valid()
      ensures cache == Rendered() && m == cache
    {
      var inner := PutEntry([], "identifier", Text(identifier));
      inner := AddEntries(factory, inner);
      cache := PutEntry(cache, "context", Nested(inner));
      m := cache;
    }

    /** Lombok's `equals`, which leaves out the factory and compares the cached map. */
    predicate Equals(other: Activity)
      reads this, other
      ensures other == this ==> Equals(other)
    {
      && level == other.level
      && identifier == other.identifier
      && message == other.message
      && cache == other.cache
    }
  }

  /** What construction yields: a blank identifier fails first, then a blank message; otherwise a
      valid activity that keeps the arguments, with nothing cached yet. */
  ghost predicate Outcome(r: Result<Activity, IllegalArgument>, level: Level,
                          identifier: Option<string>, message: Option<string>, factory: ContextFactory)
    reads if r.Success? then {r.value} else {}
  {
    match r
    case Failure(e) =>
      && (IsBlank(identifier) || IsBlank(message))
      && e == (if IsBlank(identifier) then BlankIdentifier else BlankMessage)
    case Success(a) =>
      && !IsBlank(identifier) && !IsBlank(message)
      && a.Valid()
      && a.level == level && Some(a.identifier) == identifier && Some(a.message) == message
      && a.factory == factory && a.cache == []
  }

  /** Activities that have not rendered their context yet are equal exactly when level,
      identifier and message agree, whatever their factories; once both have rendered it,
      they are equal exactly when those agree and so do their inner maps. */
  lemma EqualityIgnoresFactory(a: Activity, b: Activity)
    requires (a.cache == [] && b.cache == []) || (a.cache == a.Rendered() && b.cache == b.Rendered())
    ensures a.Equals(b) <==>
      && a.level == b.level && a.identifier == b.identifier && a.message == b.message
      && (a.cache == [] || InnerContext(a.identifier, a.factory) == InnerContext(b.identifier, b.factory))
  {
    if a.cache != [] && a.Equals(b) {
      assert a.Rendered()[0].1 == b.Rendered()[0].1;
    }
  }
}
