/** The context map that describes an exception and its chain of causes
    (`ExceptionContext.extractForm`, which `ExceptionContextFactory.contextFrom` also gives). */
module ExceptionContext {
  import opened Wrappers
  import opened OrderedMaps

  /** A `StackTraceElement`. */
  datatype Frame = Frame(className: string, methodName: string, fileName: Option<string>, lineNumber: int)

  /** A `Throwable`: its message (possibly null), its stack trace and its cause (possibly null).
      As an inductive datatype it can only hold a finite, acyclic chain of causes; Java's
      `initCause` also allows a cycle through two or more exceptions, on which `extractForm`
      recurses until the stack overflows, and that case is outside this type. */
  datatype Throwable = Throwable(message: Option<string>, frames: seq<Frame>, cause: Option<Throwable>)

  /** Number of causes below `e`. */
  function CauseCount(e: Throwable): nat
  {
    if e.cause.Some? then 1 + CauseCount(e.cause.value) else 0
  }

  function Digit(d: nat): char
    requires d < 10
  {
    "0123456789"[d]
  }

  /** Decimal form of a natural number, as `Integer.toString` writes it. */
  function DecimalText(n: nat): (s: string)
    ensures |s| > 0
  {
    if n < 10 then [Digit(n)] else DecimalText(n / 10) + [Digit(n % 10)]
  }

  /** `StackTraceElement.toString()`: `Class.method(File:Line)`, with the library's variants
      for a native method (line -2), an unknown line and an unknown file. */
  function Render(f: Frame): string
  {
    f.className + "." + f.methodName +
    if f.lineNumber == -2 then "(Native Method)"
    else match f.fileName
      case Some(file) =>
        if f.lineNumber >= 0 then "(" + file + ":" + DecimalText(f.lineNumber) + ")"
        else "(" + file + ")"
      case None => "(Unknown Source)"
  }

  /** The `trace` list: every frame rendered, in stack order. */
  function Trace(frames: seq<Frame>): (trace: seq<Value>)
    ensures |trace| == |frames|
    ensures forall i :: 0 <= i < |frames| ==> trace[i] == Text(Render(frames[i]))
  {
    if frames == [] then [] else [Text(Render(frames[0]))] + Trace(frames[1..])
  }

  function Nullable(s: Option<string>): Value
  {
    match s
    case Some(t) => Text(t)
    case None => Null
  }

  /** `extractForm(exception)`: successive puts into a fresh ordered map. */
  function ExtractForm(e: Throwable): (context: Entries)
    ensures context != [] && context[0].0 == "message"
  {
    var withMessage := PutEntry([], "message", Nullable(e.message));
    var withTrace := PutEntry(WithTopFrame(withMessage, e.frames), "trace", Items(Trace(e.frames)));
    if e.cause.Some? then PutEntry(withTrace, "previous", Nested(ExtractForm(e.cause.value)))
    else withTrace
  }

  /** The puts of `class`, `line` and `file` from the top frame, made only when there is one. */
  function WithTopFrame(context: Entries, frames: seq<Frame>): (r: Entries)
    ensures context != [] ==> r != [] && r[0].0 == context[0].0
  {
    if |frames| > 0 then
      var top := frames[0];
      PutEntry(PutEntry(PutEntry(context,
        "class", Text(top.className)),
        "line", Number(top.lineNumber)),
        "file", Nullable(top.fileName))
    else context
  }

  /** The entries that come from the top frame, present only when there is one. */
  function TopFrameEntries(frames: seq<Frame>): Entries
  {
    if |frames| > 0 then
      [("class", Text(frames[0].className)),
       ("line", Number(frames[0].lineNumber)),
       ("file", Nullable(frames[0].fileName))]
    else []
  }

  /** The entry for the cause, present only when there is one. */
  function PreviousEntries(e: Throwable): Entries
  {
    if e.cause.Some? then [("previous", Nested(ExtractForm(e.cause.value)))] else []
  }

  /** The puts never collide, so the map is, in this order: `message`, then `class`, `line`
      and `file` when there is a frame, then `trace`, then `previous` when there is a cause. */
  lemma ExtractFormShape(e: Throwable)
    ensures ExtractForm(e) ==
      [("message", Nullable(e.message))] + TopFrameEntries(e.frames)
      + [("trace", Items(Trace(e.frames)))] + PreviousEntries(e)
  {
    var m0: Entries := [("message", Nullable(e.message))];
    assert PutEntry([], "message", Nullable(e.message)) == m0;
    var m1 := m0 + TopFrameEntries(e.frames);
    TopFrameShape(m0, e.frames);
    var t := ("trace", Items(Trace(e.frames)));
    var p := ("previous", Null);
    ShapeDistinct(Nullable(e.message), TopFrameEntries(e.frames), t.1, [p]);
    DistinctLast(m1, t, [p]);
    PutAppends(m1, t.0, t.1);
    var m2 := m1 + [t];
    DistinctLast(m2, p, []);
    if e.cause.Some? {
      PutAppends(m2, "previous", Nested(ExtractForm(e.cause.value)));
    }
  }

  /** On a map holding only `message`, the top-frame puts append their three entries. */
  lemma TopFrameShape(m0: Entries, frames: seq<Frame>)
    requires |m0| == 1 && m0[0].0 == "message"
    ensures WithTopFrame(m0, frames) == m0 + TopFrameEntries(frames)
  {
    if |frames| > 0 {
      var top := frames[0];
      var c := ("class", Text(top.className));
      var l := ("line", Number(top.lineNumber));
      PutAppends(m0, c.0, c.1);
      PutAppends(m0 + [c], l.0, l.1);
      assert m0 + [c] + [l] == m0 + [c, l];
      PutAppends(m0 + [c, l], "file", Nullable(top.fileName));
    }
  }

  /** Sizes the tests rely on: 2 entries with no frame and no cause, 5 with frames and no
      cause, 6 with frames and a cause, 3 with a cause and no frame. */
  lemma ExtractFormSize(e: Throwable)
    ensures |ExtractForm(e)| == 2 + (if |e.frames| > 0 then 3 else 0) + (if e.cause.Some? then 1 else 0)
  {
    ExtractFormShape(e);
  }

  /** No key appears twice. */
  lemma ExtractFormDistinct(e: Throwable)
    ensures DistinctKeys(ExtractForm(e))
  {
    ExtractFormShape(e);
    ShapeDistinct(Nullable(e.message), TopFrameEntries(e.frames), Items(Trace(e.frames)), PreviousEntries(e));
  }

  /** The keys `message`, then `class`, `line`, `file` (or none of them), then `trace`, then
      `previous` (or not) are pairwise different. */
  lemma ShapeDistinct(message: Value, top: Entries, trace: Value, previous: Entries)
    requires top == [] || (|top| == 3 && top[0].0 == "class" && top[1].0 == "line" && top[2].0 == "file")
    requires previous == [] || (|previous| == 1 && previous[0].0 == "previous")
    ensures DistinctKeys([("message", message)] + top + [("trace", trace)] + previous)
  {
  }

  /** What `message` and `trace` read: always present, the message possibly null, the trace
      possibly empty. */
  lemma ExtractFormMessageAndTrace(e: Throwable)
    ensures Get(ExtractForm(e), "message") == Some(Nullable(e.message))
    ensures Get(ExtractForm(e), "trace") == Some(Items(Trace(e.frames)))
  {
    var m := ExtractForm(e);
    ExtractFormDistinct(e);
    ExtractFormShape(e);
    var t := if |e.frames| > 0 then 4 else 1;
    assert m[0] == ("message", Nullable(e.message));
    GetDistinct(m, 0);
    assert m[t] == ("trace", Items(Trace(e.frames)));
    GetDistinct(m, t);
  }

  /** `class`, `line` and `file` are present iff there is a frame, and then come from frame 0. */
  lemma ExtractFormTopFrame(e: Throwable)
    ensures Get(ExtractForm(e), "class").Some? <==> |e.frames| > 0
    ensures Get(ExtractForm(e), "line").Some? <==> |e.frames| > 0
    ensures Get(ExtractForm(e), "file").Some? <==> |e.frames| > 0
    ensures |e.frames| > 0 ==>
      && Get(ExtractForm(e), "class") == Some(Text(e.frames[0].className))
      && Get(ExtractForm(e), "line") == Some(Number(e.frames[0].lineNumber))
      && Get(ExtractForm(e), "file") == Some(Nullable(e.frames[0].fileName))
  {
    var m := ExtractForm(e);
    ExtractFormDistinct(e);
    ExtractFormShape(e);
    if |e.frames| > 0 {
      assert m[1] == ("class", Text(e.frames[0].className));
      assert m[2] == ("line", Number(e.frames[0].lineNumber));
      assert m[3] == ("file", Nullable(e.frames[0].fileName));
      GetDistinct(m, 1);
      GetDistinct(m, 2);
      GetDistinct(m, 3);
    } else {
      forall i | 0 <= i < |m| ensures m[i].0 != "class" && m[i].0 != "line" && m[i].0 != "file" {
        assert m[i].0 in {"message", "trace", "previous"};
        assert m[i].0[0] in {'m', 't', 'p'};
      }
      NotAKey(m, "class");
      NotAKey(m, "line");
      NotAKey(m, "file");
    }
  }

  /** `previous` is present iff there is a cause, and then holds the extraction of the cause. */
  lemma ExtractFormPrevious(e: Throwable)
    ensures Get(ExtractForm(e), "previous") ==
      if e.cause.Some? then Some(Nested(ExtractForm(e.cause.value))) else None
  {
    var m := ExtractForm(e);
    ExtractFormDistinct(e);
    ExtractFormShape(e);
    if e.cause.Some? {
      assert m[|m| - 1] == ("previous", Nested(ExtractForm(e.cause.value)));
      GetDistinct(m, |m| - 1);
    } else {
      assert forall i :: 0 <= i < |m| ==> m[i].0 in {"message", "class", "line", "file", "trace"};
    }
  }

  /** How many `previous` maps are nested inside a context value. */
  function PreviousDepth(context: Value): nat
  {
    if context.Nested? && "previous" in Keys(context.entries) then
      var i := IndexOf(context.entries, "previous");
      assert context.entries[i] in context.entries;
      1 + PreviousDepth(context.entries[i].1)
    else 0
  }

  /** The nesting of `previous` follows the cause chain exactly, so the innermost cause has
      no `previous` and the depth is the number of causes. */
  lemma {:induction false} PreviousDepthIsCauseCount(e: Throwable)
    ensures PreviousDepth(Nested(ExtractForm(e))) == CauseCount(e)
  {
    var m := ExtractForm(e);
    ExtractFormPrevious(e);
    if e.cause.Some? {
      ExtractFormShape(e);
      var inner := Nested(ExtractForm(e.cause.value));
      assert m[|m| - 1] == ("previous", inner);
      assert "previous" in Keys(m);
      var i := IndexOf(m, "previous");
      assert i == |m| - 1 by {
        ExtractFormDistinct(e);
      }
      assert m[i].1 == inner;
      PreviousDepthIsCauseCount(e.cause.value);
      assert PreviousDepth(Nested(m)) == 1 + PreviousDepth(m[i].1);
    }
  }
}
