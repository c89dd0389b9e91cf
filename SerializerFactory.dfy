/** `SerializerFactory`: serializers for a sensitive type that write a mask instead of the value.
    The JSON generator is modelled as the one string the serializer writes; a write that throws
    an `IOException` is `None`. */
module Masking {
  import opened Wrappers

  /** The mask `forType(target)` uses. */
  const DefaultMask: string := "*****"

  /** How a serializer turns a value into output: a fixed mask, or a caller's `ValueMasker`
      callback, seen through what it writes (or its failure, as `None`). */
  datatype MaskStrategy<!T> = Literal(mask: string) | Masker(write: T -> Option<string>)

  /** A `StdSerializer` registered for the class named `target`. */
  datatype Serializer<!T> = Serializer(target: string, strategy: MaskStrategy<T>)

  /** `serialize(value, generator, provider)`: what ends up in the generator. Only a masker can
      fail; a literal mask is always written. */
  function Serialize<T>(s: Serializer<T>, value: T): (written: Option<string>)
    ensures written.None? ==> s.strategy.Masker?
  {
    match s.strategy
    case Literal(mask) => Some(mask)
    case Masker(write) => write(value)
  }

  /** `forType(target, mask)`: for that class, every value is written as exactly `mask`. */
  function ForTypeWithMask<T(!new)>(target: string, mask: string): (s: Serializer<T>)
    ensures s.target == target
    ensures forall value :: Serialize(s, value) == Some(mask)
  {
    Serializer(target, Literal(mask))
  }

  /** `forType(target)`: for that class, every value is written as `*****`. */
  function ForType<T(!new)>(target: string): (s: Serializer<T>)
    ensures s.target == target
    ensures forall value :: Serialize(s, value) == Some("*****")
  {
    ForTypeWithMask(target, DefaultMask)
  }

  /** `forType(target, masker)`: for that class, the output is exactly what the masker writes
      for the value, and the masker's failure is the serializer's failure. */
  function ForTypeWithMasker<T(!new)>(target: string, masker: T -> Option<string>): (s: Serializer<T>)
    ensures s.target == target
    ensures forall value :: Serialize(s, value) == masker(value)
  {
    Serializer(target, Masker(masker))
  }

  /** The default overload is the literal overload with `*****`: the two write the same thing
      for every value. */
  lemma DefaultIsLiteral<T(!new)>(target: string, value: T)
    ensures ForType<T>(target) == ForTypeWithMask<T>(target, "*****")
    ensures Serialize(ForType<T>(target), value) == Serialize(ForTypeWithMask<T>(target, "*****"), value)
  {
  }

  /** A literal mask hides the value: two values are indistinguishable in the output. */
  lemma LiteralHidesValue<T(!new)>(target: string, mask: string, a: T, b: T)
    ensures Serialize(ForTypeWithMask<T>(target, mask), a) == Serialize(ForTypeWithMask<T>(target, mask), b)
  {
  }

  /** The masker of the custom-function example: the first character, five stars, the last
      character. `charAt(0)` on an empty string throws, so the empty string has no output. */
  function FirstAndLastVisible(s: string): (r: Option<string>)
    ensures r.Some? <==> |s| > 0
    ensures r.Some? ==>
      && |r.value| == |DefaultMask| + 2
      && r.value[0] == s[0]
      && r.value[1..|r.value| - 1] == DefaultMask
      && r.value[|r.value| - 1] == s[|s| - 1]
  {
    if |s| == 0 then None else Some([s[0]] + DefaultMask + s[|s| - 1..])
  }

  /** The output of that masker never reveals more than two characters of the value, whatever
      its length: everything else is the mask. */
  lemma FirstAndLastVisibleHidesMiddle(a: string, b: string)
    requires |a| > 0 && |b| > 0 && a[0] == b[0] && a[|a| - 1] == b[|b| - 1]
    ensures FirstAndLastVisible(a) == FirstAndLastVisible(b)
  {
    var ra := FirstAndLastVisible(a).value;
    var rb := FirstAndLastVisible(b).value;
    assert |ra| == |rb|;
    forall i | 0 <= i < |ra|
      ensures ra[i] == rb[i]
    {
      if 0 < i < |ra| - 1 {
        assert ra[i] == ra[1..|ra| - 1][i - 1];
        assert rb[i] == rb[1..|rb| - 1][i - 1];
      }
    }
    assert ra == rb;
  }

  /** The three examples: a masked `fullName` of "Jane Doe" is written `*****` by default,
      `REDACTED` with that mask, and `J*****e` with the first-and-last masker over its
      `toString()`. */
  lemma JaneDoeExamples()
    ensures Serialize(ForType<string>("MaskedValue"), "Jane Doe") == Some("*****")
    ensures Serialize(ForTypeWithMask<string>("MaskedValue", "REDACTED"), "Jane Doe") == Some("REDACTED")
    ensures Serialize(ForTypeWithMasker<string>("MaskedValue", FirstAndLastVisible), "Jane Doe") == Some("J*****e")
  {
    assert "Jane Doe"[8 - 1..] == ['e'];
    assert ['J'] + "*****" + ['e'] == "J*****e";
    assert FirstAndLastVisible("Jane Doe") == Some("J*****e");
  }
}
